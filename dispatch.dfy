// The function calls of a query (`count()`, `avg()`, ...): the seven
// aggregates as one operation each, and FunctionFlowDispatcher's fixed
// chain of name prefixes.

module FunctionFlows {
  import opened Results
  import opened Strings
  import opened JsonValues
  import opened Decimals
  import DecimalText
  import opened Aggregates
  import opened Settings

  /** NumberUtils.MIN_VALUE and MAX_VALUE, where max() and min() start
      their folds. */
  datatype Sentinels = Sentinels(lowest: Dec, highest: Dec)

  /** The seven aggregates; avg carries the precision and rounding mode it
      divides with. */
  datatype Aggregate = CountOf | SizeOf | SumOf | AvgOf(numbers: Numbers) | MinOf | MaxOf | LengthOf

  /** The name prefix that selects an aggregate (also its plugin key). */
  function KeyOf(a: Aggregate): (k: string)
    ensures |k| >= 3
  {
    match a
    case CountOf => "count"
    case SizeOf => "size"
    case SumOf => "sum"
    case AvgOf(_) => "avg"
    case MinOf => "min"
    case MaxOf => "max"
    case LengthOf => "length"
  }

  /** A whole number as the primitive `new JsonPrimitive(int)` holds. */
  function IntPrimitive(n: nat): Json {
    Prim(NatToString(n))
  }

  /** A decimal as the primitive `new JsonPrimitive(BigDecimal)` holds. */
  function DecPrimitive(d: Dec): Json {
    Prim(DecimalText.ToString(d))
  }

  /** The flow (or plugin) of an aggregate applied to an element: count and
      size never fail; length fails on an object only; the decimal ones
      fail as Sum, Average and Extreme do. */
  function Apply(a: Aggregate, sentinels: Sentinels, e: Json): (r: Result<Json>)
    ensures r.Ok? ==> r.value.Prim?
    ensures a.CountOf? || a.SizeOf? ==> r.Ok? && IsNumeric(r.value.text) && DigitsValue(r.value.text) == Count(e)
    ensures a.LengthOf? ==> (r.Err? <==> e.Obj?)
    ensures a.LengthOf? && r.Ok? ==> IsNumeric(r.value.text) && Length(e) == Ok(DigitsValue(r.value.text))
    ensures a.SumOf? ==> (r.Ok? <==> Sum(e).Ok?)
    ensures a.AvgOf? ==> (r.Ok? <==> Average(e, a.numbers.precision, a.numbers.mode).Ok?)
    ensures a.MinOf? ==> (r.Ok? <==> Extreme(Least, sentinels.highest, e).Ok?)
    ensures a.MaxOf? ==> (r.Ok? <==> Extreme(Greatest, sentinels.lowest, e).Ok?)
  {
    match a
    case CountOf =>
      NatToStringRoundTrip(Count(e));
      Ok(IntPrimitive(Count(e)))
    case SizeOf =>
      NatToStringRoundTrip(Size(e));
      Ok(IntPrimitive(Size(e)))
    case LengthOf =>
      var n :- Length(e);
      NatToStringRoundTrip(n);
      Ok(IntPrimitive(n))
    case SumOf =>
      var d :- Sum(e);
      Ok(DecPrimitive(d))
    case AvgOf(numbers) =>
      var d :- Average(e, numbers.precision, numbers.mode);
      Ok(DecPrimitive(d))
    case MinOf =>
      var d :- Extreme(Least, sentinels.highest, e);
      Ok(DecPrimitive(d))
    case MaxOf =>
      var d :- Extreme(Greatest, sentinels.lowest, e);
      Ok(DecPrimitive(d))
  }

  /** FunctionFlowDispatcher.dispatch: a blank name or a missing element is
      an IllegalArgument error; otherwise the first of count, size, sum,
      avg, min, max and length that starts the name is applied, avg with
      the context's numeric settings; a name with none of these prefixes
      gives JsonNull. */
  function Dispatch(e: Option<Json>, name: string, numbers: Numbers, sentinels: Sentinels): (r: Result<Json>)
    ensures IsBlank(name) || e.None? ==> r == Err(IllegalArgument)
  {
    if IsBlank(name) || e.None? then Err(IllegalArgument)
    else if StartsWith(name, "count") then Apply(CountOf, sentinels, e.value)
    else if StartsWith(name, "size") then Apply(SizeOf, sentinels, e.value)
    else if StartsWith(name, "sum") then Apply(SumOf, sentinels, e.value)
    else if StartsWith(name, "avg") then Apply(AvgOf(numbers), sentinels, e.value)
    else if StartsWith(name, "min") then Apply(MinOf, sentinels, e.value)
    else if StartsWith(name, "max") then Apply(MaxOf, sentinels, e.value)
    else if StartsWith(name, "length") then Apply(LengthOf, sentinels, e.value)
    else Ok(Null)
  }

  /** The first two characters tell the seven keys apart. */
  lemma KeysDiffer(a: Aggregate, b: Aggregate)
    requires KeyOf(a) != KeyOf(b)
    ensures KeyOf(a)[..2] != KeyOf(b)[..2]
  {
    var ka, kb := KeyOf(a), KeyOf(b);
    assert ka[..2] == [ka[0], ka[1]] && kb[..2] == [kb[0], kb[1]];
  }

  /** No two keys start the same name: the seven prefixes exclude each
      other, so the order of the chain never decides anything. */
  lemma {:induction false} AtMostOneKey(name: string, a: Aggregate, b: Aggregate)
    requires StartsWith(name, KeyOf(a)) && StartsWith(name, KeyOf(b))
    ensures KeyOf(a) == KeyOf(b)
  {
    if KeyOf(a) != KeyOf(b) {
      KeysDiffer(a, b);
    }
  }

  /** A name that starts with an aggregate's key runs that aggregate (avg
      with the context's settings). */
  lemma DispatchChoosesByPrefix(e: Json, name: string, numbers: Numbers, sentinels: Sentinels, a: Aggregate)
    requires !IsBlank(name) && StartsWith(name, KeyOf(a))
    requires a.AvgOf? ==> a.numbers == numbers
    ensures Dispatch(Some(e), name, numbers, sentinels) == Apply(a, sentinels, e)
  {
    forall b: Aggregate | StartsWith(name, KeyOf(b))
      ensures KeyOf(b) == KeyOf(a)
    {
      AtMostOneKey(name, a, b);
    }
    assert StartsWith(name, KeyOf(CountOf)) ==> a.CountOf?;
    assert StartsWith(name, KeyOf(SizeOf)) ==> a.SizeOf?;
    assert StartsWith(name, KeyOf(SumOf)) ==> a.SumOf?;
    assert StartsWith(name, KeyOf(AvgOf(numbers))) ==> a.AvgOf?;
    assert StartsWith(name, KeyOf(MinOf)) ==> a.MinOf?;
    assert StartsWith(name, KeyOf(MaxOf)) ==> a.MaxOf?;
  }

  /** JsonNull comes back exactly for a name that no key starts. */
  lemma DispatchUnknown(e: Json, name: string, numbers: Numbers, sentinels: Sentinels)
    requires !IsBlank(name)
    ensures Dispatch(Some(e), name, numbers, sentinels) == Ok(Null)
      <==> forall a: Aggregate :: !StartsWith(name, KeyOf(a))
  {
    if exists a: Aggregate :: StartsWith(name, KeyOf(a)) {
      var a: Aggregate :| StartsWith(name, KeyOf(a));
      var a' := if a.AvgOf? then AvgOf(numbers) else a;
      assert KeyOf(a') == KeyOf(a);
      DispatchChoosesByPrefix(e, name, numbers, sentinels, a');
    } else {
      assert !StartsWith(name, KeyOf(CountOf)) && !StartsWith(name, KeyOf(SizeOf));
      assert !StartsWith(name, KeyOf(SumOf)) && !StartsWith(name, KeyOf(AvgOf(numbers)));
      assert !StartsWith(name, KeyOf(MinOf)) && !StartsWith(name, KeyOf(MaxOf));
      assert !StartsWith(name, KeyOf(LengthOf));
    }
  }

  /** `size()` over two people is 2. */
  lemma SizeExample(p: Json, q: Json, size: string, numbers: Numbers, sentinels: Sentinels)
    requires size == "size()"
    ensures Dispatch(Some(Arr([p, q])), size, numbers, sentinels) == Ok(Prim("2"))
  {
    assert !IsBlank(size) && StartsWith(size, KeyOf(SizeOf)) by { assert !IsWhitespace(size[0]); }
    DispatchChoosesByPrefix(Arr([p, q]), size, numbers, sentinels, SizeOf);
    assert NatToString(2) == "2";
  }

  /** `avg()` over the ages 25 and 20 is 22.50 under the default settings. */
  lemma AvgExample(a: string, b: string, avg: string, sentinels: Sentinels)
    requires a == "25" && b == "20" && avg == "avg()"
    ensures Dispatch(Some(Arr([Prim(a), Prim(b)])), avg, Defaults.numbers, sentinels) == Ok(Prim("22.50"))
  {
    assert !IsBlank(avg) && StartsWith(avg, KeyOf(AvgOf(Defaults.numbers))) by { assert !IsWhitespace(avg[0]); }
    DispatchChoosesByPrefix(Arr([Prim(a), Prim(b)]), avg, Defaults.numbers, sentinels, AvgOf(Defaults.numbers));
    AverageExamples(a, b, [], 2, RoundHalfUp);
    AverageText();
  }
}
