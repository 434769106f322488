/** Criterion evaluation on JSON elements and the array filter strategies:
    a criterion `name op value` (or several joined by one logical operator)
    is tested against a primitive, an object or, through the active filter
    strategy, an array. */
module JsonCriteria {
  import opened Results
  import opened Strings
  import Tokens
  import opened Lexer
  import opened JsonValues
  import opened Comparisons

  /** JsonArrayFilter.Strategy: the three array filter policies. */
  datatype Strategy = AllIfAnyMatching | KeepMatchingAndPrimitives | OnlyMatching

  /** The three parts of a single criterion. */
  datatype Triple = Triple(name: string, op: string, value: string)

  /** The form a criterion is evaluated in: trimmed, without any space. */
  function Compact(criterion: string): (r: string)
    ensures forall i :: 0 <= i < |r| ==> r[i] != ' '
  {
    RemoveSpaces(Trim(criterion))
  }

  /** JsonPredicate.getTokens: the compact criterion, lexed with the criteria
      table, must give exactly three tokens; a blank or unlexable criterion
      fails in the lexer. */
  function ParseTriple(criterion: string): (r: Result<Triple>)
    ensures var lexed := Tokenized(CriteriaTable, Compact(criterion));
      && (r.Ok? <==> lexed.Ok? && |lexed.value| == 3)
      && (r.Ok? ==> r.value == Triple(lexed.value[0].text, lexed.value[1].text, lexed.value[2].text))
      && (lexed.Ok? && |lexed.value| != 3 ==> r == Err(IllegalCriteria))
      && (lexed.Err? ==> r == Err(UnexpectedSymbol))
  {
    var tokens :- Tokenized(CriteriaTable, Compact(criterion));
    if |tokens| == 3 then Ok(Triple(tokens[0].text, tokens[1].text, tokens[2].text))
    else Err(IllegalCriteria)
  }

  /** The comparison of an actual text with the triple's value, built by the
      expression factory (an operator other than a comparison fails there). */
  function Compared(actual: string, t: Triple): (r: Result<bool>)
    ensures t.op in ComparisonOperators ==> r == Holds(RelationOf(t.op).value, actual, t.value)
    ensures t.op !in ComparisonOperators ==> r.Err?
  {
    var e :- BooleanExpression(Text(actual), t.op, Text(t.value));
    Interpret(e)
  }

  /** JsonPredicate.accept, once the criterion is parsed. */
  function PredicateAccept(strategy: Strategy, criterion: string, j: Json): (r: Result<bool>)
    ensures IsBlank(Compact(criterion)) ==> r == Err(UnexpectedSymbol)
    ensures j.Null? ==> r.Err?
    decreases j, 4
  {
    var t :- ParseTriple(criterion);
    AcceptTriple(strategy, criterion, t, j)
  }

  /** The accept step on a parsed triple: a primitive is compared by its text
      (the name is not used), an object by its named primitive member (a
      missing member is a null dereference, a non-primitive one a failed
      cast), an array holds iff the strategy's filter leaves a non-empty
      array, and JsonNull is IllegalArgument. */
  function AcceptTriple(strategy: Strategy, criterion: string, t: Triple, j: Json): (r: Result<bool>)
    ensures j.Null? ==> r == Err(IllegalArgument)
    ensures j.Prim? ==> r == Compared(j.text, t)
    ensures j.Obj? && !Has(j.members, t.name) ==> r == Err(NullPointer)
    ensures j.Obj? && Has(j.members, t.name) && !Get(j.members, t.name).value.Prim? ==> r == Err(ClassCast)
    decreases j, 3
  {
    match j
    case Null => Err(IllegalArgument)
    case Prim(text) => Compared(text, t)
    case Obj(members) =>
      (match Get(members, t.name)
       case None => Err(NullPointer)
       case Some(Prim(text)) => Compared(text, t)
       case Some(_) => Err(ClassCast))
    case Arr(_) =>
      var r :- ArrayFilter(strategy, j, criterion);
      Ok(r.Arr? && |r.items| > 0)
  }

  /** The characters of an operator, the separators StringUtils.split uses. */
  function Separators(op: string): set<char> {
    set i | 0 <= i < |op| :: op[i]
  }

  /** Every piece of a split criterion evaluated against the same element. */
  function Outcomes(strategy: Strategy, pieces: seq<string>, j: Json): (r: seq<Result<bool>>)
    ensures |r| == |pieces|
    ensures forall i :: 0 <= i < |pieces| ==> r[i] == PredicateAccept(strategy, pieces[i], j)
    decreases j, 5
  {
    seq(|pieces|, i requires 0 <= i < |pieces| => PredicateAccept(strategy, pieces[i], j))
  }

  /** The outcomes collected in order: all their values when every one
      succeeded, otherwise the first failure. */
  function Collect(rs: seq<Result<bool>>): (r: Result<seq<bool>>)
    ensures r.Ok? <==> forall i :: 0 <= i < |rs| ==> rs[i].Ok?
    ensures r.Ok? ==> |r.value| == |rs| && forall i :: 0 <= i < |rs| ==> rs[i] == Ok(r.value[i])
  {
    if rs == [] then Ok([])
    else
      var b :- rs[0];
      var rest :- Collect(rs[1..]);
      assert forall i :: 1 <= i < |rs| ==> rs[i] == rs[1..][i - 1];
      Ok([b] + rest)
  }

  /** A failure preceded only by successes is the failure of the whole. */
  lemma {:induction false} CollectFailure(rs: seq<Result<bool>>, i: nat)
    requires i < |rs| && rs[i].Err?
    requires forall k :: 0 <= k < i ==> rs[k].Ok?
    ensures Collect(rs) == Err(rs[i].error)
    decreases i
  {
    if i > 0 {
      var tail := rs[1..];
      assert forall k :: 0 <= k < |tail| ==> tail[k] == rs[k + 1];
      CollectFailure(tail, i - 1);
    }
  }

  /** JsonExpression.interpret: a blank compact criterion holds; one without a
      logical operator is a single predicate; otherwise it is split on the
      operator's characters, every piece is evaluated (no short circuit, the
      first failure wins) and the results are folded from `true` for `&&` and
      `false` for `||`. */
  function ExpressionHolds(strategy: Strategy, j: Json, criterion: string): (r: Result<bool>)
    ensures IsBlank(Compact(criterion)) ==> r == Ok(true)
    ensures !IsBlank(Compact(criterion)) && FindLogicalOperator(Compact(criterion)).Err? ==> r.Err?
    decreases j, 7
  {
    var c := Compact(criterion);
    if IsBlank(c) then Ok(true)
    else
      var op :- FindLogicalOperator(c);
      if IsBlank(op) then PredicateAccept(strategy, c, j)
      else Combined(strategy, j, c, op)
  }

  /** A compact criterion joined by a logical operator: split on the
      operator's characters, every piece evaluated, the results folded. */
  function Combined(strategy: Strategy, j: Json, c: string, op: string): Result<bool>
    decreases j, 6
  {
    var initial :- if op == AndOperator then Ok(true) else if op == OrOperator then Ok(false) else Err(IllegalArgument);
    var results :- Collect(Outcomes(strategy, SplitOn(c, Separators(op)), j));
    Fold(op, initial, results)
  }

  /** The left fold of the results with the logical operator, each step an
      expression built by the factory over two constants. */
  function Fold(op: string, acc: bool, results: seq<bool>): Result<bool>
    decreases |results|
  {
    if results == [] then Ok(acc)
    else
      var e :- BooleanExpression(Sub(Constant(acc)), op, Sub(Constant(results[0])));
      var v :- Interpret(e);
      Fold(op, v, results[1..])
  }

  lemma AndOfConstants(a: bool, b: bool)
    ensures Interpret(Conjunction(Constant(a), Constant(b))) == Ok(a && b)
  {
  }

  lemma OrOfConstants(a: bool, b: bool)
    ensures Interpret(Disjunction(Constant(a), Constant(b))) == Ok(a || b)
  {
  }

  /** The `&&` fold from `true` is the conjunction of all results. */
  lemma {:induction false} FoldAndIsAll(acc: bool, results: seq<bool>)
    ensures Fold(AndOperator, acc, results) == Ok(acc && forall i :: 0 <= i < |results| ==> results[i])
    decreases |results|
  {
    if results != [] {
      assert BooleanExpression(Sub(Constant(acc)), AndOperator, Sub(Constant(results[0])))
        == Ok(Conjunction(Constant(acc), Constant(results[0])));
      AndOfConstants(acc, results[0]);
      FoldAndIsAll(acc && results[0], results[1..]);
      assert forall i :: 1 <= i < |results| ==> results[i] == results[1..][i - 1];
    }
  }

  /** The `||` fold from `false` is the disjunction of all results. */
  lemma {:induction false} FoldOrIsAny(acc: bool, results: seq<bool>)
    ensures Fold(OrOperator, acc, results) == Ok(acc || exists i :: 0 <= i < |results| && results[i])
    decreases |results|
  {
    if results != [] {
      assert BooleanExpression(Sub(Constant(acc)), OrOperator, Sub(Constant(results[0])))
        == Ok(Disjunction(Constant(acc), Constant(results[0])));
      OrOfConstants(acc, results[0]);
      FoldOrIsAny(acc || results[0], results[1..]);
      assert forall i :: 1 <= i < |results| ==> results[i] == results[1..][i - 1];
      if results[0] {
        assert exists i :: 0 <= i < |results| && results[i];
      }
    }
  }

  /** A non-blank criterion whose logical operator is `&&` or `||` is
      evaluated as the combination of its pieces. */
  lemma NonBlankIsCombined(strategy: Strategy, j: Json, criterion: string, op: string)
    requires !IsBlank(Compact(criterion)) && FindLogicalOperator(Compact(criterion)) == Ok(op)
    requires op == AndOperator || op == OrOperator
    ensures ExpressionHolds(strategy, j, criterion) == Combined(strategy, j, Compact(criterion), op)
  {
    assert !IsBlank(op) by {
      assert !IsWhitespace(op[0]);
    }
  }

  /** A non-blank criterion with a logical operator is the fold of its pieces' results. */
  lemma CombinedHolds(strategy: Strategy, j: Json, criterion: string, op: string, initial: bool, results: seq<bool>)
    requires !IsBlank(Compact(criterion)) && FindLogicalOperator(Compact(criterion)) == Ok(op)
    requires (op == AndOperator && initial) || (op == OrOperator && !initial)
    requires Collect(Outcomes(strategy, SplitOn(Compact(criterion), Separators(op)), j)) == Ok(results)
    ensures ExpressionHolds(strategy, j, criterion) == Fold(op, initial, results)
  {
    NonBlankIsCombined(strategy, j, criterion, op);
  }

  /** A non-blank criterion with a logical operator fails when one of its pieces does. */
  lemma CombinedFails(strategy: Strategy, j: Json, criterion: string, op: string, e: Error)
    requires !IsBlank(Compact(criterion)) && FindLogicalOperator(Compact(criterion)) == Ok(op)
    requires op == AndOperator || op == OrOperator
    requires Collect(Outcomes(strategy, SplitOn(Compact(criterion), Separators(op)), j)) == Err(e)
    ensures ExpressionHolds(strategy, j, criterion) == Err(e)
  {
    NonBlankIsCombined(strategy, j, criterion, op);
  }

  /** JsonObjectFilter.filter: the object itself when the criterion holds on
      it, JsonNull when it does not. */
  function ObjectFilter(strategy: Strategy, j: Json, criterion: string): (r: Result<Json>)
    ensures r.Ok? ==> r.value == j || r.value == Null
    decreases j, 8
  {
    var holds :- ExpressionHolds(strategy, j, criterion);
    Ok(if holds then j else Null)
  }

  /** AbstractJsonArrayFilterStrategy.filterWithRouting: a primitive passes,
      an object goes to the object filter, a nested array is filtered by the
      same strategy, anything else is JsonNull. */
  function Route(strategy: Strategy, j: Json, criterion: string): (r: Result<Json>)
    ensures j.Prim? || j.Null? ==> r == Ok(j)
    ensures j.Obj? && r.Ok? ==> r.value == j || r.value == Null
    ensures j.Arr? && r.Ok? ==> r.value.Arr? || r.value.Null?
    decreases j, 9
  {
    match j
    case Prim(_) => Ok(j)
    case Obj(_) => ObjectFilter(strategy, j, criterion)
    case Arr(_) => ArrayFilter(strategy, j, criterion)
    case Null => Ok(Null)
  }

  /** What one element contributes to the survivors: a primitive itself, but
      only under KeepMatchingAndPrimitives; any other element its routed
      result unless that is JsonNull. */
  function Kept(strategy: Strategy, e: Json, criterion: string): (r: Result<seq<Json>>)
    ensures r.Ok? ==> |r.value| <= 1 && forall k :: 0 <= k < |r.value| ==> !r.value[k].Null?
    ensures e.Prim? ==> r == Ok(if strategy.KeepMatchingAndPrimitives? then [e] else [])
    decreases e, 10
  {
    if e.Prim? then Ok(if strategy.KeepMatchingAndPrimitives? then [e] else [])
    else
      var r :- Route(strategy, e, criterion);
      Ok(if r.Null? then [] else [r])
  }

  /** The contribution of every element of an array, in order. */
  function KeptEach(strategy: Strategy, a: Json, criterion: string): (r: seq<Result<seq<Json>>>)
    requires a.Arr?
    ensures |r| == |a.items|
    ensures forall i :: 0 <= i < |a.items| ==> r[i] == Kept(strategy, a.items[i], criterion)
    decreases a, 0
  {
    seq(|a.items|, i requires 0 <= i < |a.items| => Kept(strategy, a.items[i], criterion))
  }

  /** The contributions joined in order, or the first failure. */
  function Gather(rs: seq<Result<seq<Json>>>): (r: Result<seq<Json>>)
    ensures r.Ok? <==> forall i :: 0 <= i < |rs| ==> rs[i].Ok?
  {
    if rs == [] then Ok([])
    else
      var head :- rs[0];
      var rest :- Gather(rs[1..]);
      assert forall i :: 1 <= i < |rs| ==> rs[i] == rs[1..][i - 1];
      Ok(head + rest)
  }

  /** The elements the strategy keeps, in order. */
  function Survivors(strategy: Strategy, a: Json, criterion: string): (r: Result<seq<Json>>)
    requires a.Arr?
    ensures r.Ok? <==> forall i :: 0 <= i < |a.items| ==> Kept(strategy, a.items[i], criterion).Ok?
    decreases a, 1
  {
    Gather(KeptEach(strategy, a, criterion))
  }

  /** JsonArrayFilter.filter for each strategy (OnlyMatchingStrategy.filter
      for ONLY_MATCHING): no survivor gives JsonNull; otherwise the same array
      for ALL_IF_ANY_MATCHING and a fresh array of the survivors for the other
      two. The input is left as it is. */
  function ArrayFilter(strategy: Strategy, a: Json, criterion: string): (r: Result<Json>)
    requires a.Arr?
    ensures r.Ok? ==> r.value.Null? || r.value.Arr?
    decreases a, 2
  {
    var kept :- Survivors(strategy, a, criterion);
    if kept == [] then Ok(Null)
    else if strategy.AllIfAnyMatching? then Ok(a)
    else Ok(Arr(kept))
  }

  /** The filter flows (the one configured by a context and the one reading
      the global configuration): a Java null or JsonNull gives JsonNull, an
      object goes to the object filter, an array to the strategy, and a
      primitive is returned as it is. */
  function FilterFlow(strategy: Strategy, criterion: string, e: Option<Json>): (r: Result<Json>)
    ensures e.None? || e == Some(Null) ==> r == Ok(Null)
    ensures e.Some? && e.value.Prim? ==> r == Ok(e.value)
    ensures r.Ok? && e.Some? && e.value.Obj? ==> r.value == e.value || r.value == Null
    ensures r.Ok? && e.Some? && e.value.Arr? ==> r.value.Arr? || r.value.Null?
  {
    match e
    case None => Ok(Null)
    case Some(j) =>
      match j
      case Null => Ok(Null)
      case Obj(_) => ObjectFilter(strategy, j, criterion)
      case Arr(_) => ArrayFilter(strategy, j, criterion)
      case Prim(_) => Ok(j)
  }

  // ---------------------------------------------------------------------
  // What the strategies keep.

  /** The objects of a sequence, in order. */
  function Objects(xs: seq<Json>): (r: seq<Json>)
    ensures |r| <= |xs|
    ensures forall k :: 0 <= k < |r| ==> r[k].Obj?
  {
    if xs == [] then [] else (if xs[0].Obj? then [xs[0]] else []) + Objects(xs[1..])
  }

  /** The primitives of a sequence, in order. */
  function Primitives(xs: seq<Json>): (r: seq<Json>)
    ensures |r| <= |xs|
    ensures forall k :: 0 <= k < |r| ==> r[k].Prim?
  {
    if xs == [] then [] else (if xs[0].Prim? then [xs[0]] else []) + Primitives(xs[1..])
  }

  predicate NoNull(xs: seq<Json>) {
    forall k :: 0 <= k < |xs| ==> !xs[k].Null?
  }

  /** The criterion holds on an object. */
  predicate Matches(strategy: Strategy, e: Json, criterion: string) {
    e.Obj? && ExpressionHolds(strategy, e, criterion) == Ok(true)
  }

  function MatchFlags(strategy: Strategy, xs: seq<Json>, criterion: string): (r: seq<bool>)
    ensures |r| == |xs|
    ensures forall i :: 0 <= i < |xs| ==> r[i] == Matches(strategy, xs[i], criterion)
  {
    seq(|xs|, i requires 0 <= i < |xs| => Matches(strategy, xs[i], criterion))
  }

  /** The elements whose flag is set, in order. */
  function Selected(xs: seq<Json>, flags: seq<bool>): (r: seq<Json>)
    requires |flags| == |xs|
    ensures |r| <= |xs|
  {
    if xs == [] then [] else (if flags[0] then [xs[0]] else []) + Selected(xs[1..], flags[1..])
  }

  /** The objects of a sequence the criterion holds on, in order. */
  function MatchingObjects(strategy: Strategy, xs: seq<Json>, criterion: string): seq<Json> {
    Selected(xs, MatchFlags(strategy, xs, criterion))
  }

  lemma ObjectsAppend(a: seq<Json>, b: seq<Json>)
    ensures Objects(a + b) == Objects(a) + Objects(b)
    ensures Primitives(a + b) == Primitives(a) + Primitives(b)
  {
    if a != [] {
      assert (a + b)[1..] == a[1..] + b;
      ObjectsAppend(a[1..], b);
    } else {
      assert a + b == b;
    }
  }

  /** A routed object is kept whole when the criterion holds on it and
      becomes JsonNull when it does not. */
  lemma RouteOfObject(strategy: Strategy, e: Json, criterion: string)
    requires e.Obj? && Route(strategy, e, criterion).Ok?
    ensures var r := Route(strategy, e, criterion).value;
      && (r == e <==> ExpressionHolds(strategy, e, criterion) == Ok(true))
      && (r == Null <==> ExpressionHolds(strategy, e, criterion) == Ok(false))
  {
  }

  /** A routed nested array becomes its filtered form: an array or JsonNull. */
  lemma RouteOfArray(strategy: Strategy, e: Json, criterion: string)
    requires e.Arr? && Route(strategy, e, criterion).Ok?
    ensures Route(strategy, e, criterion).value.Arr? || Route(strategy, e, criterion).value.Null?
  {
  }

  /** A routed primitive is returned unchanged and a routed JsonNull stays JsonNull. */
  lemma RouteOfScalar(strategy: Strategy, e: Json, criterion: string)
    requires e.Prim? || e.Null?
    ensures Route(strategy, e, criterion) == Ok(e)
  {
  }

  /** What a contribution may hold: at most one element and never JsonNull;
      the element itself exactly when flagged (among the objects) and when
      it is a primitive and primitives are kept. */
  predicate Contribution(e: Json, h: seq<Json>, flag: bool, keep: bool) {
    && |h| <= 1 && NoNull(h)
    && Objects(h) == (if flag then [e] else [])
    && Primitives(h) == (if e.Prim? && keep then [e] else [])
  }

  /** Each element contributes itself when it is a matching object or a kept
      primitive, the filtered form of a nested array, or nothing. */
  lemma KeptShape(strategy: Strategy, e: Json, criterion: string)
    requires Kept(strategy, e, criterion).Ok?
    ensures Contribution(e, Kept(strategy, e, criterion).value, Matches(strategy, e, criterion),
                         strategy.KeepMatchingAndPrimitives?)
  {
    if e.Obj? {
      RouteOfObject(strategy, e, criterion);
    } else if e.Arr? {
      RouteOfArray(strategy, e, criterion);
    } else if e.Null? {
      RouteOfScalar(strategy, e, criterion);
    }
  }

  /** Joining contributions keeps exactly the flagged objects and (when kept)
      the primitives, each in order, and never JsonNull. */
  lemma {:induction false} GatherCharacterised(xs: seq<Json>, rs: seq<Result<seq<Json>>>, flags: seq<bool>, keep: bool)
    requires |rs| == |xs| && |flags| == |xs|
    requires forall i :: 0 <= i < |xs| ==> rs[i].Ok? && Contribution(xs[i], rs[i].value, flags[i], keep)
    ensures Gather(rs).Ok?
    ensures var kept := Gather(rs).value;
      && |kept| <= |xs| && NoNull(kept)
      && Objects(kept) == Selected(xs, flags)
      && Primitives(kept) == (if keep then Primitives(xs) else [])
    decreases |xs|
  {
    if xs != [] {
      var h := rs[0].value;
      assert forall i :: 1 <= i < |xs| ==> rs[1..][i - 1] == rs[i] && xs[1..][i - 1] == xs[i] && flags[1..][i - 1] == flags[i];
      GatherCharacterised(xs[1..], rs[1..], flags[1..], keep);
      var rest := Gather(rs[1..]).value;
      GatherStep(rs);
      ObjectsAppend(h, rest);
      NoNullAppend(h, rest);
      assert Selected(xs, flags) == (if flags[0] then [xs[0]] else []) + Selected(xs[1..], flags[1..]);
      assert Primitives(xs) == (if xs[0].Prim? then [xs[0]] else []) + Primitives(xs[1..]);
    }
  }

  lemma GatherStep(rs: seq<Result<seq<Json>>>)
    requires rs != [] && Gather(rs).Ok?
    ensures Gather(rs).value == rs[0].value + Gather(rs[1..]).value
  {
  }

  lemma NoNullAppend(a: seq<Json>, b: seq<Json>)
    requires NoNull(a) && NoNull(b)
    ensures NoNull(a + b)
  {
  }

  /** What survives: exactly the matching objects and (only under
      KeepMatchingAndPrimitives) exactly the primitives, each in its original
      order; never JsonNull and never more elements than there were. */
  lemma SurvivorsCharacterised(strategy: Strategy, a: Json, criterion: string)
    requires a.Arr? && Survivors(strategy, a, criterion).Ok?
    ensures var kept := Survivors(strategy, a, criterion).value;
      && |kept| <= |a.items| && NoNull(kept)
      && Objects(kept) == MatchingObjects(strategy, a.items, criterion)
      && Primitives(kept) == (if strategy.KeepMatchingAndPrimitives? then Primitives(a.items) else [])
  {
    var rs := KeptEach(strategy, a, criterion);
    var flags := MatchFlags(strategy, a.items, criterion);
    forall i | 0 <= i < |a.items|
      ensures rs[i].Ok? && Contribution(a.items[i], rs[i].value, flags[i], strategy.KeepMatchingAndPrimitives?)
    {
      KeptShape(strategy, a.items[i], criterion);
    }
    GatherCharacterised(a.items, rs, flags, strategy.KeepMatchingAndPrimitives?);
  }

  /** ONLY_MATCHING keeps exactly the matching objects, in order, and drops
      every primitive; the result is never longer than the input. */
  lemma OnlyMatchingKeepsMatchingObjects(a: Json, criterion: string)
    requires a.Arr? && ArrayFilter(OnlyMatching, a, criterion).Ok?
    ensures var r := ArrayFilter(OnlyMatching, a, criterion).value;
      && (r.Arr? ==> (|r.items| <= |a.items| && Primitives(r.items) == []
            && Objects(r.items) == MatchingObjects(OnlyMatching, a.items, criterion)))
      && (r.Null? ==> MatchingObjects(OnlyMatching, a.items, criterion) == [])
  {
    SurvivorsCharacterised(OnlyMatching, a, criterion);
  }

  /** KEEP_MATCHING_AND_PRIMITIVES keeps every primitive and exactly the
      matching objects, each in order; JsonNull only when there is neither. */
  lemma KeepMatchingKeepsPrimitives(a: Json, criterion: string)
    requires a.Arr? && ArrayFilter(KeepMatchingAndPrimitives, a, criterion).Ok?
    ensures var r := ArrayFilter(KeepMatchingAndPrimitives, a, criterion).value;
      && (r.Arr? ==> (|r.items| <= |a.items| && Primitives(r.items) == Primitives(a.items)
            && Objects(r.items) == MatchingObjects(KeepMatchingAndPrimitives, a.items, criterion)))
      && (r.Null? ==> Primitives(a.items) == [] && MatchingObjects(KeepMatchingAndPrimitives, a.items, criterion) == [])
  {
    SurvivorsCharacterised(KeepMatchingAndPrimitives, a, criterion);
  }

  /** ALL_IF_ANY_MATCHING returns the very same array or JsonNull, and the
      same array whenever some object of it matches. */
  lemma AllIfAnyIsAllOrNothing(a: Json, criterion: string)
    requires a.Arr? && ArrayFilter(AllIfAnyMatching, a, criterion).Ok?
    ensures var r := ArrayFilter(AllIfAnyMatching, a, criterion).value;
      && (r == a || r == Null)
      && (MatchingObjects(AllIfAnyMatching, a.items, criterion) != [] ==> r == a)
  {
    SurvivorsCharacterised(AllIfAnyMatching, a, criterion);
  }

  /** A blank criterion holds on every element. */
  lemma BlankCriterionHolds(strategy: Strategy, j: Json, criterion: string)
    requires IsBlank(Compact(criterion))
    ensures ExpressionHolds(strategy, j, criterion) == Ok(true)
  {
  }

  /** With a blank criterion every object matches, so the default strategy
      returns the same array as soon as it holds an object. */
  lemma BlankCriterionKeepsArray(a: Json, criterion: string, k: nat)
    requires a.Arr? && k < |a.items| && a.items[k].Obj? && IsBlank(Compact(criterion))
    requires ArrayFilter(AllIfAnyMatching, a, criterion).Ok?
    ensures ArrayFilter(AllIfAnyMatching, a, criterion) == Ok(a)
  {
    var flags := MatchFlags(AllIfAnyMatching, a.items, criterion);
    BlankCriterionHolds(AllIfAnyMatching, a.items[k], criterion);
    SelectedHasFlagged(a.items, flags, k);
    AllIfAnyIsAllOrNothing(a, criterion);
  }

  lemma {:induction false} SelectedHasFlagged(xs: seq<Json>, flags: seq<bool>, k: nat)
    requires |flags| == |xs| && k < |xs| && flags[k]
    ensures Selected(xs, flags) != []
  {
    if k > 0 && !flags[0] {
      SelectedHasFlagged(xs[1..], flags[1..], k - 1);
    }
  }

  /** With `&&` the criterion holds iff every piece holds, once every piece
      could be evaluated. */
  lemma AndCriterionIsConjunction(strategy: Strategy, j: Json, criterion: string)
    requires !IsBlank(Compact(criterion)) && FindLogicalOperator(Compact(criterion)) == Ok(AndOperator)
    requires var pieces := SplitOn(Compact(criterion), Separators(AndOperator));
      forall i :: 0 <= i < |pieces| ==> PredicateAccept(strategy, pieces[i], j).Ok?
    ensures var pieces := SplitOn(Compact(criterion), Separators(AndOperator));
      ExpressionHolds(strategy, j, criterion) ==
        Ok(forall i :: 0 <= i < |pieces| ==> PredicateAccept(strategy, pieces[i], j) == Ok(true))
  {
    var pieces := SplitOn(Compact(criterion), Separators(AndOperator));
    var rs := Outcomes(strategy, pieces, j);
    var results := Collect(rs).value;
    CombinedHolds(strategy, j, criterion, AndOperator, true, results);
    FoldAndIsAll(true, results);
  }

  /** With `||` the criterion holds iff some piece holds, once every piece
      could be evaluated. */
  lemma OrCriterionIsDisjunction(strategy: Strategy, j: Json, criterion: string)
    requires !IsBlank(Compact(criterion)) && FindLogicalOperator(Compact(criterion)) == Ok(OrOperator)
    requires var pieces := SplitOn(Compact(criterion), Separators(OrOperator));
      forall i :: 0 <= i < |pieces| ==> PredicateAccept(strategy, pieces[i], j).Ok?
    ensures var pieces := SplitOn(Compact(criterion), Separators(OrOperator));
      ExpressionHolds(strategy, j, criterion) ==
        Ok(exists i :: 0 <= i < |pieces| && PredicateAccept(strategy, pieces[i], j) == Ok(true))
  {
    var pieces := SplitOn(Compact(criterion), Separators(OrOperator));
    var rs := Outcomes(strategy, pieces, j);
    var results := Collect(rs).value;
    CombinedHolds(strategy, j, criterion, OrOperator, false, results);
    FoldOrIsAny(false, results);
    if exists i :: 0 <= i < |pieces| && PredicateAccept(strategy, pieces[i], j) == Ok(true) {
      var i :| 0 <= i < |pieces| && PredicateAccept(strategy, pieces[i], j) == Ok(true);
      assert rs[i] == Ok(results[i]);
    }
  }

  /** No short circuit: a failing piece makes the whole criterion fail even
      when an earlier piece already decided an `||` (or an `&&`). */
  lemma NoShortCircuit(strategy: Strategy, j: Json, criterion: string, i: nat)
    requires !IsBlank(Compact(criterion))
    requires FindLogicalOperator(Compact(criterion)) == Ok(AndOperator)
      || FindLogicalOperator(Compact(criterion)) == Ok(OrOperator)
    requires var op := FindLogicalOperator(Compact(criterion)).value;
      var pieces := SplitOn(Compact(criterion), Separators(op));
      && i < |pieces| && PredicateAccept(strategy, pieces[i], j).Err?
      && forall k :: 0 <= k < i ==> PredicateAccept(strategy, pieces[k], j).Ok?
    ensures var op := FindLogicalOperator(Compact(criterion)).value;
      var pieces := SplitOn(Compact(criterion), Separators(op));
      ExpressionHolds(strategy, j, criterion) == Err(PredicateAccept(strategy, pieces[i], j).error)
  {
    var op := FindLogicalOperator(Compact(criterion)).value;
    var pieces := SplitOn(Compact(criterion), Separators(op));
    var rs := Outcomes(strategy, pieces, j);
    CollectFailure(rs, i);
    CombinedFails(strategy, j, criterion, op, rs[i].error);
  }

  /** The person of the predicate and expression tests. */
  const JohnSnow: Json := Obj([Member("firstName", Prim("John")), Member("lastName", Prim("Snow")),
                               Member("age", Prim("25"))])

  /** The member tests on that person: firstName=John holds, firstName=Jack
      does not, and a missing member is a null dereference. */
  lemma NameExamples(strategy: Strategy, c: string)
    ensures AcceptTriple(strategy, c, Triple("firstName", "=", "John"), JohnSnow) == Ok(true)
    ensures AcceptTriple(strategy, c, Triple("firstName", "=", "Jack"), JohnSnow) == Ok(false)
    ensures AcceptTriple(strategy, c, Triple("city", "=", "Winterfell"), JohnSnow) == Err(NullPointer)
  {
    var ms := JohnSnow.members;
    assert Get(ms, "firstName") == Some(Prim("John"));
    assert Get(ms, "city") == None;
    assert !IsDigit("John"[0]);
  }

  /** The age member is the text "25". */
  lemma AgeIsCompared(strategy: Strategy, c: string, t: Triple)
    requires t.name == "age"
    ensures AcceptTriple(strategy, c, t, JohnSnow) == Compared("25", t)
  {
    var ms := JohnSnow.members;
    assert Get(ms, "age") == Some(Prim("25")) by {
      assert ms[0].name != "age" && ms[1].name != "age";
      assert Get(ms[2..], "age") == Some(Prim("25"));
    }
  }

  /** The equality tests on the age: age=25 holds and age!=25 does not. */
  lemma AgeEqualityExamples(strategy: Strategy, c: string)
    ensures AcceptTriple(strategy, c, Triple("age", "=", "25"), JohnSnow) == Ok(true)
    ensures AcceptTriple(strategy, c, Triple("age", "!=", "25"), JohnSnow) == Ok(false)
  {
    AgeIsCompared(strategy, c, Triple("age", "=", "25"));
    AgeIsCompared(strategy, c, Triple("age", "!=", "25"));
    assert IsNumeric("25");
    RelationOfOperatorText(Equal);
    RelationOfOperatorText(NotEqual);
    HoldsOnNumbers(Equal, "25", "25");
    HoldsOnNumbers(NotEqual, "25", "25");
  }

  /** The lower-bound test on the age: age>=25 holds. */
  lemma AgeAtLeastExample(strategy: Strategy, c: string)
    ensures AcceptTriple(strategy, c, Triple("age", ">=", "25"), JohnSnow) == Ok(true)
  {
    AgeIsCompared(strategy, c, Triple("age", ">=", "25"));
    assert IsNumeric("25");
    RelationOfOperatorText(GreaterThanEqualTo);
    HoldsOnNumbers(GreaterThanEqualTo, "25", "25");
  }

  /** The upper-bound test on the age: age<=50 holds. */
  lemma AgeAtMostExample(strategy: Strategy, c: string)
    ensures AcceptTriple(strategy, c, Triple("age", "<=", "50"), JohnSnow) == Ok(true)
  {
    AgeIsCompared(strategy, c, Triple("age", "<=", "50"));
    assert IsNumeric("25") && IsNumeric("50");
    assert DigitsValue("25") == 25 && DigitsValue("50") == 50;
    RelationOfOperatorText(LessThanEqualTo);
    HoldsOnNumbers(LessThanEqualTo, "25", "50");
  }

  /** The last-name tests on that person: lastName=Snow holds and
      lastName=Winter does not. */
  lemma LastNameExamples(strategy: Strategy, c: string)
    ensures AcceptTriple(strategy, c, Triple("lastName", "=", "Snow"), JohnSnow) == Ok(true)
    ensures AcceptTriple(strategy, c, Triple("lastName", "=", "Winter"), JohnSnow) == Ok(false)
  {
    var ms := JohnSnow.members;
    assert Get(ms, "lastName") == Some(Prim("Snow")) by {
      assert ms[0].name != "lastName";
      assert Get(ms[1..], "lastName") == Some(Prim("Snow"));
    }
    assert !IsDigit("Snow"[0]);
  }

  /** The criteria table's six comparison operators, at patterns 2 to 7:
      `=`, `!=`, `>=`, `>`, `<=` and `<`. */
  predicate ReadableOperator(k: nat) {
    2 <= k <= 7
  }

  /** A value the criteria table's pattern `kv` reads: a name at 0, a digit
      string at 1. */
  predicate ValueAt(kv: nat, v: string) {
    (kv == 0 && IsName(v)) || (kv == 1 && IsNumeric(v))
  }

  /** The text of the criteria table's literal pattern `k`. */
  function LiteralText(k: nat): string
    requires k < |CriteriaTable|
  {
    match CriteriaTable[k].regex
    case Literal(t) => t
    case _ => ""
  }

  /** The tokens of the comparison `a op v`. */
  function ComparisonTokens(a: string, k: nat, v: string, kv: nat): seq<Tokens.Token>
    requires k < |CriteriaTable| && kv < |CriteriaTable|
  {
    [Tokens.Token(Tokens.Variable, a), Tokens.Token(CriteriaTable[k].kind, LiteralText(k)),
     Tokens.Token(CriteriaTable[kv].kind, v)]
  }

  /** The text of the comparison `a op v`. */
  function ComparisonText(a: string, k: nat, v: string): string
    requires k < |CriteriaTable|
  {
    a + (LiteralText(k) + v)
  }

  /** The criteria table reads every token of a comparison back from its place. */
  lemma ComparisonReadable(a: string, k: nat, v: string, kv: nat)
    requires IsName(a) && ReadableOperator(k) && ValueAt(kv, v)
    ensures ReadableSpelling(CriteriaTable, ComparisonTokens(a, k, v, kv), Gapless3, [0, k, kv])
  {
    var ts, gaps, ks := ComparisonTokens(a, k, v, kv), Gapless3, [0, k, kv];
    forall i | 0 <= i < 3
      ensures AllSpaces(gaps[i]) && ReadBack(CriteriaTable, ks[i], ts[i], After(ts, gaps, i))
    {
      if i == 0 {
        CriteriaNameReadBack(a, After(ts, gaps, i));
      } else if i == 1 {
        assert After(ts, gaps, i) == [v[0]] && v[0] != '=';
        CriteriaSymbolReadBack(k, After(ts, gaps, i));
      } else if kv == 0 {
        CriteriaNameReadBack(v, After(ts, gaps, i));
      } else {
        CriteriaNumberReadBack(v, After(ts, gaps, i));
      }
    }
  }

  /** A comparison lexes to its three tokens. */
  lemma ComparisonLexes(a: string, k: nat, v: string, kv: nat)
    requires IsName(a) && ReadableOperator(k) && ValueAt(kv, v)
    ensures Tokenized(CriteriaTable, ComparisonText(a, k, v)) == Ok(ComparisonTokens(a, k, v, kv))
  {
    TablesAreWellFormed();
    var ts := ComparisonTokens(a, k, v, kv);
    ComparisonReadable(a, k, v, kv);
    TokenizedSpelled(CriteriaTable, ts, Gapless3, [0, k, kv]);
    SpelledThree(ts[0], ts[1], ts[2]);
  }

  /** A text of visible characters is its own compact form. */
  lemma CompactOfVisible(s: string)
    requires forall i :: 0 <= i < |s| ==> Tokens.IsVisible(s[i])
    ensures Compact(s) == s
  {
    forall i | 0 <= i < |s|
      ensures !IsTrimmable(s[i]) && s[i] != ' '
    {
      Tokens.VisibleIsNotSpace(s[i]);
    }
    TrimVisible(s);
    RemoveSpacesOfSpaceless(s);
  }

  /** The characters of a comparison are visible and none is `&` or `|`. */
  lemma ComparisonCharacters(a: string, k: nat, v: string, kv: nat)
    requires IsName(a) && ReadableOperator(k) && ValueAt(kv, v)
    ensures var c := ComparisonText(a, k, v);
      c != [] && forall i :: 0 <= i < |c| ==> Tokens.IsVisible(c[i]) && c[i] != '&' && c[i] != '|'
  {
    var c := ComparisonText(a, k, v);
    var op := LiteralText(k);
    assert forall i :: 0 <= i < |a| ==> Tokens.IsWordChar(a[i]);
    assert forall i :: 0 <= i < |v| ==> Tokens.IsWordChar(v[i]);
    assert forall i :: 0 <= i < |op| ==> op[i] in "=!<>";
    forall i | 0 <= i < |c|
      ensures Tokens.IsVisible(c[i]) && c[i] != '&' && c[i] != '|'
    {
      if i < |a| {
        assert c[i] == a[i];
      } else if i < |a| + |op| {
        assert c[i] == op[i - |a|];
      } else {
        assert c[i] == v[i - |a| - |op|];
      }
    }
  }

  /** A comparison, compacted, lexes to its three tokens. */
  lemma CompactComparisonLexes(a: string, k: nat, v: string, kv: nat)
    requires IsName(a) && ReadableOperator(k) && ValueAt(kv, v)
    ensures Tokenized(CriteriaTable, Compact(ComparisonText(a, k, v))) == Ok(ComparisonTokens(a, k, v, kv))
  {
    ComparisonCharacters(a, k, v, kv);
    CompactOfVisible(ComparisonText(a, k, v));
    ComparisonLexes(a, k, v, kv);
  }

  /** A comparison parses to its triple. */
  lemma ComparisonParses(a: string, k: nat, v: string, kv: nat)
    requires IsName(a) && ReadableOperator(k) && ValueAt(kv, v)
    ensures ParseTriple(ComparisonText(a, k, v)) == Ok(Triple(a, LiteralText(k), v))
  {
    CompactComparisonLexes(a, k, v, kv);
  }

  /** Two criteria joined by the logical operator of pattern `l`. */
  function JoinedText(c1: string, l: nat, c2: string): string
    requires l < |CriteriaTable|
  {
    c1 + (LiteralText(l) + c2)
  }

  /** The logical operators of the criteria table: `&&` at 8, `||` at 9. */
  predicate IsLogicalPattern(l: nat) {
    l == 8 || l == 9
  }

  /** The tokens of two comparisons joined by a logical operator. */
  function JoinedTokens(a: string, k1: nat, v: string, kv1: nat, l: nat, b: string, k2: nat, w: string, kv2: nat): seq<Tokens.Token>
    requires k1 < |CriteriaTable| && kv1 < |CriteriaTable| && l < |CriteriaTable|
    requires k2 < |CriteriaTable| && kv2 < |CriteriaTable|
  {
    [Tokens.Token(Tokens.Variable, a), Tokens.Token(CriteriaTable[k1].kind, LiteralText(k1)),
     Tokens.Token(CriteriaTable[kv1].kind, v), Tokens.Token(CriteriaTable[l].kind, LiteralText(l)),
     Tokens.Token(Tokens.Variable, b), Tokens.Token(CriteriaTable[k2].kind, LiteralText(k2)),
     Tokens.Token(CriteriaTable[kv2].kind, w)]
  }

  /** The criteria table reads the names of two joined comparisons back. */
  lemma JoinedNamesReadBack(a: string, k1: nat, v: string, kv1: nat, l: nat, b: string, k2: nat, w: string, kv2: nat, i: nat)
    requires IsName(a) && ReadableOperator(k1) && ValueAt(kv1, v) && IsLogicalPattern(l)
    requires IsName(b) && ReadableOperator(k2) && ValueAt(kv2, w)
    requires i == 0 || i == 4
    ensures var ts, ks := JoinedTokens(a, k1, v, kv1, l, b, k2, w, kv2), [0, k1, kv1, l, 0, k2, kv2];
      ReadBack(CriteriaTable, ks[i], ts[i], After(ts, Gapless7, i))
  {
    var ts := JoinedTokens(a, k1, v, kv1, l, b, k2, w, kv2);
    var after := After(ts, Gapless7, i);
    CriteriaNameReadBack(if i == 0 then a else b, after);
  }

  /** The criteria table reads the operators of two joined comparisons back. */
  lemma JoinedOperatorsReadBack(a: string, k1: nat, v: string, kv1: nat, l: nat, b: string, k2: nat, w: string, kv2: nat, i: nat)
    requires IsName(a) && ReadableOperator(k1) && ValueAt(kv1, v) && IsLogicalPattern(l)
    requires IsName(b) && ReadableOperator(k2) && ValueAt(kv2, w)
    requires i == 1 || i == 3 || i == 5
    ensures var ts, ks := JoinedTokens(a, k1, v, kv1, l, b, k2, w, kv2), [0, k1, kv1, l, 0, k2, kv2];
      ReadBack(CriteriaTable, ks[i], ts[i], After(ts, Gapless7, i))
  {
    var ts := JoinedTokens(a, k1, v, kv1, l, b, k2, w, kv2);
    var after := After(ts, Gapless7, i);
    assert i == 1 ==> after == [v[0]] && v[0] != '=';
    assert i == 5 ==> after == [w[0]] && w[0] != '=';
    CriteriaSymbolReadBack(if i == 1 then k1 else if i == 3 then l else k2, after);
  }

  /** The criteria table reads the values of two joined comparisons back. */
  lemma JoinedValuesReadBack(a: string, k1: nat, v: string, kv1: nat, l: nat, b: string, k2: nat, w: string, kv2: nat, i: nat)
    requires IsName(a) && ReadableOperator(k1) && ValueAt(kv1, v) && IsLogicalPattern(l)
    requires IsName(b) && ReadableOperator(k2) && ValueAt(kv2, w)
    requires i == 2 || i == 6
    ensures var ts, ks := JoinedTokens(a, k1, v, kv1, l, b, k2, w, kv2), [0, k1, kv1, l, 0, k2, kv2];
      ReadBack(CriteriaTable, ks[i], ts[i], After(ts, Gapless7, i))
  {
    var ts := JoinedTokens(a, k1, v, kv1, l, b, k2, w, kv2);
    var after := After(ts, Gapless7, i);
    var kv, x := if i == 2 then kv1 else kv2, if i == 2 then v else w;
    if kv == 0 {
      CriteriaNameReadBack(x, after);
    } else {
      CriteriaNumberReadBack(x, after);
    }
  }

  /** The criteria table reads every token of two joined comparisons back
      from its place. */
  lemma JoinedReadable(a: string, k1: nat, v: string, kv1: nat, l: nat, b: string, k2: nat, w: string, kv2: nat)
    requires IsName(a) && ReadableOperator(k1) && ValueAt(kv1, v) && IsLogicalPattern(l)
    requires IsName(b) && ReadableOperator(k2) && ValueAt(kv2, w)
    ensures ReadableSpelling(CriteriaTable, JoinedTokens(a, k1, v, kv1, l, b, k2, w, kv2), Gapless7, [0, k1, kv1, l, 0, k2, kv2])
  {
    forall i | 0 <= i < 7
      ensures ReadBack(CriteriaTable, [0, k1, kv1, l, 0, k2, kv2][i], JoinedTokens(a, k1, v, kv1, l, b, k2, w, kv2)[i],
        After(JoinedTokens(a, k1, v, kv1, l, b, k2, w, kv2), Gapless7, i))
    {
      if i == 0 || i == 4 {
        JoinedNamesReadBack(a, k1, v, kv1, l, b, k2, w, kv2, i);
      } else if i == 2 || i == 6 {
        JoinedValuesReadBack(a, k1, v, kv1, l, b, k2, w, kv2, i);
      } else {
        JoinedOperatorsReadBack(a, k1, v, kv1, l, b, k2, w, kv2, i);
      }
    }
  }

  /** Two joined comparisons are spelled without spaces. */
  lemma JoinedSpelled(a: string, k1: nat, v: string, kv1: nat, l: nat, b: string, k2: nat, w: string, kv2: nat)
    requires ReadableOperator(k1) && IsLogicalPattern(l) && ReadableOperator(k2) && kv1 <= 1 && kv2 <= 1
    ensures Spelled(JoinedTokens(a, k1, v, kv1, l, b, k2, w, kv2), Gapless7)
      == JoinedText(ComparisonText(a, k1, v), l, ComparisonText(b, k2, w))
  {
    var ts1, ts2 := ComparisonTokens(a, k1, v, kv1), ComparisonTokens(b, k2, w, kv2);
    var lt := [Tokens.Token(CriteriaTable[l].kind, LiteralText(l))];
    assert JoinedTokens(a, k1, v, kv1, l, b, k2, w, kv2) == ts1 + (lt + ts2);
    var e: string := [];
    assert Gapless7 == Gapless3 + ([e] + Gapless3);
    SpelledJoin(lt, [e], ts2, Gapless3);
    SpelledJoin(ts1, Gapless3, lt + ts2, [e] + Gapless3);
    SpelledThree(ts1[0], ts1[1], ts1[2]);
    SpelledThree(ts2[0], ts2[1], ts2[2]);
    SpelledPrependTight(lt[0], [], []);
    assert LiteralText(l) + [] == LiteralText(l);
  }

  /** Two joined comparisons lex to their seven tokens. */
  lemma JoinedLexes(a: string, k1: nat, v: string, kv1: nat, l: nat, b: string, k2: nat, w: string, kv2: nat)
    requires IsName(a) && ReadableOperator(k1) && ValueAt(kv1, v) && IsLogicalPattern(l)
    requires IsName(b) && ReadableOperator(k2) && ValueAt(kv2, w)
    ensures Tokenized(CriteriaTable, JoinedText(ComparisonText(a, k1, v), l, ComparisonText(b, k2, w)))
      == Ok(JoinedTokens(a, k1, v, kv1, l, b, k2, w, kv2))
  {
    TablesAreWellFormed();
    JoinedReadable(a, k1, v, kv1, l, b, k2, w, kv2);
    TokenizedSpelled(CriteriaTable, JoinedTokens(a, k1, v, kv1, l, b, k2, w, kv2), Gapless7, [0, k1, kv1, l, 0, k2, kv2]);
    JoinedSpelled(a, k1, v, kv1, l, b, k2, w, kv2);
  }

  /** The logical operator of two joined comparisons is the one joining them. */
  lemma JoinedOperator(a: string, k1: nat, v: string, kv1: nat, l: nat, b: string, k2: nat, w: string, kv2: nat)
    requires IsName(a) && ReadableOperator(k1) && ValueAt(kv1, v) && IsLogicalPattern(l)
    requires IsName(b) && ReadableOperator(k2) && ValueAt(kv2, w)
    ensures FindLogicalOperator(JoinedText(ComparisonText(a, k1, v), l, ComparisonText(b, k2, w))) == Ok(LiteralText(l))
  {
    JoinedLexes(a, k1, v, kv1, l, b, k2, w, kv2);
    JoinedFirstLogical(a, k1, v, kv1, l, b, k2, w, kv2);
  }

  /** The first logical token of two joined comparisons is the joining one. */
  lemma JoinedFirstLogical(a: string, k1: nat, v: string, kv1: nat, l: nat, b: string, k2: nat, w: string, kv2: nat)
    requires ReadableOperator(k1) && IsLogicalPattern(l) && ReadableOperator(k2) && kv1 <= 1 && kv2 <= 1
    ensures FirstLogical(JoinedTokens(a, k1, v, kv1, l, b, k2, w, kv2)) == LiteralText(l)
  {
    var ts := JoinedTokens(a, k1, v, kv1, l, b, k2, w, kv2);
    assert !IsLogical(ts[0]) && !IsLogical(ts[1]) && !IsLogical(ts[2]) && IsLogical(ts[3]);
    FirstLogicalAt(ts, 3);
  }

  /** The first logical token decides the operator, whatever follows it. */
  lemma {:induction false} FirstLogicalAt(ts: seq<Tokens.Token>, i: nat)
    requires i < |ts| && IsLogical(ts[i])
    requires forall j :: 0 <= j < i ==> !IsLogical(ts[j])
    ensures FirstLogical(ts) == ts[i].text
    decreases i
  {
    if i > 0 {
      assert forall j :: 0 <= j < i - 1 ==> ts[1..][j] == ts[j + 1];
      FirstLogicalAt(ts[1..], i - 1);
    }
  }

  /** The separators of `&&` and `||`. */
  lemma LogicalSeparators(l: nat)
    requires IsLogicalPattern(l)
    ensures l == 8 ==> Separators(LiteralText(l)) == {'&'}
    ensures l == 9 ==> Separators(LiteralText(l)) == {'|'}
  {
    var op := LiteralText(l);
    assert op == if l == 8 then "&&" else "||";
    forall c | c in Separators(op)
      ensures c == op[0]
    {
    }
    assert op[0] in Separators(op);
  }

  /** Two joined comparisons split back into the two comparisons. */
  lemma JoinedSplits(a: string, k1: nat, v: string, kv1: nat, l: nat, b: string, k2: nat, w: string, kv2: nat)
    requires IsName(a) && ReadableOperator(k1) && ValueAt(kv1, v) && IsLogicalPattern(l)
    requires IsName(b) && ReadableOperator(k2) && ValueAt(kv2, w)
    ensures var c1, c2 := ComparisonText(a, k1, v), ComparisonText(b, k2, w);
      SplitOn(JoinedText(c1, l, c2), Separators(LiteralText(l))) == [c1, c2]
  {
    var c1, c2 := ComparisonText(a, k1, v), ComparisonText(b, k2, w);
    ComparisonCharacters(a, k1, v, kv1);
    ComparisonCharacters(b, k2, w, kv2);
    LogicalSeparators(l);
    SplitTwo(c1, LiteralText(l), c2, Separators(LiteralText(l)));
  }

  /** The characters of two joined comparisons are visible. */
  lemma JoinedVisible(a: string, k1: nat, v: string, kv1: nat, l: nat, b: string, k2: nat, w: string, kv2: nat)
    requires IsName(a) && ReadableOperator(k1) && ValueAt(kv1, v) && IsLogicalPattern(l)
    requires IsName(b) && ReadableOperator(k2) && ValueAt(kv2, w)
    ensures var s := JoinedText(ComparisonText(a, k1, v), l, ComparisonText(b, k2, w));
      s != [] && forall i :: 0 <= i < |s| ==> Tokens.IsVisible(s[i])
  {
    var c1, c2, op := ComparisonText(a, k1, v), ComparisonText(b, k2, w), LiteralText(l);
    ComparisonCharacters(a, k1, v, kv1);
    ComparisonCharacters(b, k2, w, kv2);
    var s := JoinedText(c1, l, c2);
    forall i | 0 <= i < |s|
      ensures Tokens.IsVisible(s[i])
    {
      if i < |c1| {
        assert s[i] == c1[i];
      } else if i < |c1| + |op| {
        assert s[i] == op[i - |c1|];
      } else {
        assert s[i] == c2[i - |c1| - |op|];
      }
    }
  }

  /** Two joined comparisons are already compact and not blank. */
  lemma JoinedCompact(a: string, k1: nat, v: string, kv1: nat, l: nat, b: string, k2: nat, w: string, kv2: nat)
    requires IsName(a) && ReadableOperator(k1) && ValueAt(kv1, v) && IsLogicalPattern(l)
    requires IsName(b) && ReadableOperator(k2) && ValueAt(kv2, w)
    ensures var s := JoinedText(ComparisonText(a, k1, v), l, ComparisonText(b, k2, w));
      Compact(s) == s && !IsBlank(s)
  {
    var s := JoinedText(ComparisonText(a, k1, v), l, ComparisonText(b, k2, w));
    JoinedVisible(a, k1, v, kv1, l, b, k2, w, kv2);
    CompactOfVisible(s);
    Tokens.VisibleIsNotSpace(s[0]);
  }

  /** What the logical-criterion lemmas ask of two joined comparisons: not
      blank once compacted, the joining operator found, and the split giving
      back the two comparisons. */
  lemma JoinedPremises(a: string, k1: nat, v: string, kv1: nat, l: nat, b: string, k2: nat, w: string, kv2: nat)
    requires IsName(a) && ReadableOperator(k1) && ValueAt(kv1, v) && IsLogicalPattern(l)
    requires IsName(b) && ReadableOperator(k2) && ValueAt(kv2, w)
    ensures var c1, c2 := ComparisonText(a, k1, v), ComparisonText(b, k2, w);
      var s := JoinedText(c1, l, c2);
      && !IsBlank(Compact(s))
      && FindLogicalOperator(Compact(s)) == Ok(LiteralText(l))
      && SplitOn(Compact(s), Separators(LiteralText(l))) == [c1, c2]
  {
    JoinedCompact(a, k1, v, kv1, l, b, k2, w, kv2);
    JoinedOperator(a, k1, v, kv1, l, b, k2, w, kv2);
    JoinedSplits(a, k1, v, kv1, l, b, k2, w, kv2);
  }

  /** A single comparison is accepted as its own triple. */
  lemma ComparisonAccept(strategy: Strategy, j: Json, a: string, k: nat, v: string, kv: nat)
    requires IsName(a) && ReadableOperator(k) && ValueAt(kv, v)
    ensures PredicateAccept(strategy, ComparisonText(a, k, v), j)
      == AcceptTriple(strategy, ComparisonText(a, k, v), Triple(a, LiteralText(k), v), j)
  {
    ComparisonParses(a, k, v, kv);
  }

  /** Two comparisons joined by `&&` hold when both hold, and joined by `||`
      when either does, as long as both can be evaluated. */
  lemma JoinedHolds(strategy: Strategy, j: Json, a: string, k1: nat, v: string, kv1: nat, l: nat, b: string, k2: nat, w: string, kv2: nat)
    requires IsName(a) && ReadableOperator(k1) && ValueAt(kv1, v) && IsLogicalPattern(l)
    requires IsName(b) && ReadableOperator(k2) && ValueAt(kv2, w)
    requires AcceptTriple(strategy, ComparisonText(a, k1, v), Triple(a, LiteralText(k1), v), j).Ok?
    requires AcceptTriple(strategy, ComparisonText(b, k2, w), Triple(b, LiteralText(k2), w), j).Ok?
    ensures var c1, c2 := ComparisonText(a, k1, v), ComparisonText(b, k2, w);
      var x := AcceptTriple(strategy, c1, Triple(a, LiteralText(k1), v), j) == Ok(true);
      var y := AcceptTriple(strategy, c2, Triple(b, LiteralText(k2), w), j) == Ok(true);
      ExpressionHolds(strategy, j, JoinedText(c1, l, c2)) == Ok(if l == 8 then x && y else x || y)
  {
    var c1, c2 := ComparisonText(a, k1, v), ComparisonText(b, k2, w);
    var s := JoinedText(c1, l, c2);
    JoinedPremises(a, k1, v, kv1, l, b, k2, w, kv2);
    ComparisonAccept(strategy, j, a, k1, v, kv1);
    ComparisonAccept(strategy, j, b, k2, w, kv2);
    if l == 8 {
      assert LiteralText(l) == AndOperator;
      PairConjunction(strategy, j, s, c1, c2);
    } else {
      assert LiteralText(l) == OrOperator;
      PairDisjunction(strategy, j, s, c1, c2);
    }
  }

  /** Two pieces that both evaluate collect to their two values. */
  lemma PairOutcomes(strategy: Strategy, j: Json, c1: string, c2: string)
    requires PredicateAccept(strategy, c1, j).Ok? && PredicateAccept(strategy, c2, j).Ok?
    ensures Collect(Outcomes(strategy, [c1, c2], j))
      == Ok([PredicateAccept(strategy, c1, j).value, PredicateAccept(strategy, c2, j).value])
  {
    CollectTwo(Outcomes(strategy, [c1, c2], j));
  }

  /** Two successes collect to their two values. */
  lemma CollectTwo(rs: seq<Result<bool>>)
    requires |rs| == 2 && rs[0].Ok? && rs[1].Ok?
    ensures Collect(rs) == Ok([rs[0].value, rs[1].value])
  {
    var r := Collect(rs);
    assert r.Ok? && rs[0] == Ok(r.value[0]) && rs[1] == Ok(r.value[1]);
    assert r.value == [rs[0].value, rs[1].value];
  }

  /** An `&&` criterion of two pieces holds iff both pieces hold. */
  lemma PairConjunction(strategy: Strategy, j: Json, criterion: string, c1: string, c2: string)
    requires !IsBlank(Compact(criterion)) && FindLogicalOperator(Compact(criterion)) == Ok(AndOperator)
    requires SplitOn(Compact(criterion), Separators(AndOperator)) == [c1, c2]
    requires PredicateAccept(strategy, c1, j).Ok? && PredicateAccept(strategy, c2, j).Ok?
    ensures ExpressionHolds(strategy, j, criterion)
      == Ok(PredicateAccept(strategy, c1, j) == Ok(true) && PredicateAccept(strategy, c2, j) == Ok(true))
  {
    var results := [PredicateAccept(strategy, c1, j).value, PredicateAccept(strategy, c2, j).value];
    PairOutcomes(strategy, j, c1, c2);
    CombinedHolds(strategy, j, criterion, AndOperator, true, results);
    FoldPair(results[0], results[1]);
  }

  /** An `||` criterion of two pieces holds iff either piece holds. */
  lemma PairDisjunction(strategy: Strategy, j: Json, criterion: string, c1: string, c2: string)
    requires !IsBlank(Compact(criterion)) && FindLogicalOperator(Compact(criterion)) == Ok(OrOperator)
    requires SplitOn(Compact(criterion), Separators(OrOperator)) == [c1, c2]
    requires PredicateAccept(strategy, c1, j).Ok? && PredicateAccept(strategy, c2, j).Ok?
    ensures ExpressionHolds(strategy, j, criterion)
      == Ok(PredicateAccept(strategy, c1, j) == Ok(true) || PredicateAccept(strategy, c2, j) == Ok(true))
  {
    var results := [PredicateAccept(strategy, c1, j).value, PredicateAccept(strategy, c2, j).value];
    PairOutcomes(strategy, j, c1, c2);
    CombinedHolds(strategy, j, criterion, OrOperator, false, results);
    FoldPair(results[0], results[1]);
  }

  /** Folding two results is their conjunction under `&&` and their
      disjunction under `||`. */
  lemma FoldPair(x: bool, y: bool)
    ensures Fold(AndOperator, true, [x, y]) == Ok(x && y)
    ensures Fold(OrOperator, false, [x, y]) == Ok(x || y)
  {
    var results := [x, y];
    FoldAndIsAll(true, results);
    assert (forall i :: 0 <= i < |results| ==> results[i]) == (x && y);
    FoldOrIsAny(false, results);
    if y {
      assert results[1];
    }
  }

  /** The texts of the literal patterns of the expression tests. */
  lemma ExampleOperators()
    ensures LiteralText(2) == "=" && LiteralText(4) == ">=" && LiteralText(6) == "<="
    ensures LiteralText(8) == AndOperator && LiteralText(9) == OrOperator
  {
  }

  /** The names and numbers of the expression tests. */
  lemma ExampleWords()
    ensures IsName("firstName") && IsName("lastName") && IsName("age")
    ensures IsName("John") && IsName("Jack") && IsName("Snow") && IsName("Winter")
    ensures IsNumeric("25") && IsNumeric("50")
  {
  }

  /** The text "firstName=John&&lastName=Snow", cut at its comparisons and operator. */
  lemma FirstAndLastNameText()
    ensures "firstName=John&&lastName=Snow"
      == "firstName" + ("=" + ("John" + ("&&" + ("lastName" + ("=" + "Snow")))))
  {
  }

  /** The text "firstName=John||lastName=Winter", cut at its comparisons and operator. */
  lemma FirstOrLastNameText()
    ensures "firstName=John||lastName=Winter"
      == "firstName" + ("=" + ("John" + ("||" + ("lastName" + ("=" + "Winter")))))
  {
  }

  /** The text "firstName=Jack||lastName=Winter", cut at its comparisons and operator. */
  lemma NeitherNameText()
    ensures "firstName=Jack||lastName=Winter"
      == "firstName" + ("=" + ("Jack" + ("||" + ("lastName" + ("=" + "Winter")))))
  {
  }

  /** The text "age>=25&&age<=50", cut at its comparisons and operator. */
  lemma AgeBetweenText()
    ensures "age>=25&&age<=50"
      == "age" + (">=" + ("25" + ("&&" + ("age" + ("<=" + "50")))))
  {
  }

  /** "firstName=John&&lastName=Snow" holds on John Snow. */
  lemma FirstAndLastNameExample(strategy: Strategy, text: string)
    requires text == "firstName=John&&lastName=Snow"
    ensures ExpressionHolds(strategy, JohnSnow, text) == Ok(true)
  {
    FirstAndLastNameText();
    ExampleOperators();
    JoinedSpelling("firstName", 2, "John", 8, "lastName", 2, "Snow");
    FirstAndLastNameHold(strategy, ComparisonText("firstName", 2, "John"), ComparisonText("lastName", 2, "Snow"));
  }

  /** "firstName=John||lastName=Winter" holds on John Snow. */
  lemma FirstOrLastNameExample(strategy: Strategy, text: string)
    requires text == "firstName=John||lastName=Winter"
    ensures ExpressionHolds(strategy, JohnSnow, text) == Ok(true)
  {
    FirstOrLastNameText();
    ExampleOperators();
    JoinedSpelling("firstName", 2, "John", 9, "lastName", 2, "Winter");
    FirstOrLastNameHold(strategy, ComparisonText("firstName", 2, "John"), ComparisonText("lastName", 2, "Winter"));
  }

  /** The first comparison of "firstName=John||lastName=Winter" holds on John Snow. */
  lemma FirstOrLastNameHold(strategy: Strategy, c1: string, c2: string)
    requires c1 == ComparisonText("firstName", 2, "John") && c2 == ComparisonText("lastName", 2, "Winter")
    ensures ExpressionHolds(strategy, JohnSnow, JoinedText(c1, 9, c2)) == Ok(true)
  {
    ExampleOperators();
    ExampleWords();
    NameExamples(strategy, c1);
    LastNameExamples(strategy, c2);
    JoinedHolds(strategy, JohnSnow, "firstName", 2, "John", 0, 9, "lastName", 2, "Winter", 0);
  }

  /** "firstName=Jack||lastName=Winter" does not hold on John Snow. */
  lemma NeitherNameExample(strategy: Strategy, text: string)
    requires text == "firstName=Jack||lastName=Winter"
    ensures ExpressionHolds(strategy, JohnSnow, text) == Ok(false)
  {
    NeitherNameText();
    ExampleOperators();
    JoinedSpelling("firstName", 2, "Jack", 9, "lastName", 2, "Winter");
    NeitherNameHolds(strategy, ComparisonText("firstName", 2, "Jack"), ComparisonText("lastName", 2, "Winter"));
  }

  /** Neither comparison of "firstName=Jack||lastName=Winter" holds on John Snow. */
  lemma NeitherNameHolds(strategy: Strategy, c1: string, c2: string)
    requires c1 == ComparisonText("firstName", 2, "Jack") && c2 == ComparisonText("lastName", 2, "Winter")
    ensures ExpressionHolds(strategy, JohnSnow, JoinedText(c1, 9, c2)) == Ok(false)
  {
    ExampleOperators();
    ExampleWords();
    NameExamples(strategy, c1);
    LastNameExamples(strategy, c2);
    JoinedHolds(strategy, JohnSnow, "firstName", 2, "Jack", 0, 9, "lastName", 2, "Winter", 0);
  }

  /** "age>=25&&age<=50" holds on John Snow, who is 25. */
  lemma AgeBetweenExample(strategy: Strategy, text: string)
    requires text == "age>=25&&age<=50"
    ensures ExpressionHolds(strategy, JohnSnow, text) == Ok(true)
  {
    AgeBetweenText();
    ExampleOperators();
    JoinedSpelling("age", 4, "25", 8, "age", 6, "50");
    AgeBetweenHolds(strategy, ComparisonText("age", 4, "25"), ComparisonText("age", 6, "50"));
  }

  /** "age>10", the criterion of the minimum-age fetch test, reads as its
      triple and holds on John Snow, who is 25. */
  lemma AgeAboveTenExample(strategy: Strategy, text: string)
    requires text == "age>10"
    ensures ParseTriple(text) == Ok(Triple("age", ">", "10"))
    ensures PredicateAccept(strategy, text, JohnSnow) == Ok(true)
  {
    assert text == "age" + (">" + "10");
    assert LiteralText(5) == ">";
    AgeAboveTenHolds(strategy, ComparisonText("age", 5, "10"));
  }

  /** The comparison "age>10" as the criteria table reads it. */
  lemma AgeAboveTenHolds(strategy: Strategy, c: string)
    requires c == ComparisonText("age", 5, "10")
    ensures ParseTriple(c) == Ok(Triple("age", LiteralText(5), "10"))
    ensures PredicateAccept(strategy, c, JohnSnow) == Ok(true)
  {
    assert IsName("age") && IsNumeric("10");
    ComparisonParses("age", 5, "10", 1);
    ComparisonAccept(strategy, JohnSnow, "age", 5, "10", 1);
    AgeAboveTenTriple(strategy, c);
  }

  /** The triple of "age>10" holds on John Snow. */
  lemma AgeAboveTenTriple(strategy: Strategy, c: string)
    ensures AcceptTriple(strategy, c, Triple("age", LiteralText(5), "10"), JohnSnow) == Ok(true)
  {
    assert LiteralText(5) == ">";
    AgeIsCompared(strategy, c, Triple("age", ">", "10"));
    RelationOfOperatorText(GreaterThan);
    AgeAboveTen();
  }

  lemma AgeAboveTen()
    ensures Holds(GreaterThan, "25", "10") == Ok(true)
  {
    assert IsNumeric("25") && DigitsValue("25") == 25 && DigitsValue("10") == 10;
    HoldsOnNumbers(GreaterThan, "25", "10");
  }

  /** Both bounds of "age>=25&&age<=50" hold on John Snow. */
  lemma AgeBetweenHolds(strategy: Strategy, c1: string, c2: string)
    requires c1 == ComparisonText("age", 4, "25") && c2 == ComparisonText("age", 6, "50")
    ensures ExpressionHolds(strategy, JohnSnow, JoinedText(c1, 8, c2)) == Ok(true)
  {
    ExampleOperators();
    ExampleWords();
    AgeAtLeastExample(strategy, c1);
    AgeAtMostExample(strategy, c2);
    JoinedHolds(strategy, JohnSnow, "age", 4, "25", 1, 8, "age", 6, "50", 1);
  }

  /** Two joined comparisons written out, right-nested. */
  lemma JoinedSpelling(a: string, k1: nat, v: string, l: nat, b: string, k2: nat, w: string)
    requires k1 < |CriteriaTable| && l < |CriteriaTable| && k2 < |CriteriaTable|
    ensures JoinedText(ComparisonText(a, k1, v), l, ComparisonText(b, k2, w))
      == a + (LiteralText(k1) + (v + (LiteralText(l) + (b + (LiteralText(k2) + w)))))
  {
  }

  /** Both comparisons of "firstName=John&&lastName=Snow" hold on John Snow. */
  lemma FirstAndLastNameHold(strategy: Strategy, c1: string, c2: string)
    requires c1 == ComparisonText("firstName", 2, "John") && c2 == ComparisonText("lastName", 2, "Snow")
    ensures ExpressionHolds(strategy, JohnSnow, JoinedText(c1, 8, c2)) == Ok(true)
  {
    ExampleOperators();
    ExampleWords();
    NameExamples(strategy, c1);
    LastNameExamples(strategy, c2);
    JoinedHolds(strategy, JohnSnow, "firstName", 2, "John", 0, 8, "lastName", 2, "Snow", 0);
  }

  /** On a primitive the name of the triple plays no part. */
  lemma PrimitiveIgnoresName(strategy: Strategy, c: string, text: string, name1: string, name2: string, op: string, value: string)
    ensures AcceptTriple(strategy, c, Triple(name1, op, value), Prim(text))
      == AcceptTriple(strategy, c, Triple(name2, op, value), Prim(text))
  {
  }
}
