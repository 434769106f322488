/** The aggregate functions a query can end with: count, size, sum, avg, min,
    max and length. The flow family (SumFlow, AverageFlow, MaxFlow,
    LengthFlow, ...) and the plugin family (CountPlugin, SumPlugin,
    MinPlugin, ...) compute the same thing element kind by element kind, so
    each aggregate is defined once here and both families use it. */
module Aggregates {
  import opened Results
  import opened Strings
  import opened JsonValues
  import opened Decimals
  import DecimalText
  import JsonCriteria

  // ---------------------------------------------------------------------
  // count, size and length

  /** CountPlugin.flow: 0 for JsonNull, 1 for a primitive or an object, the
      number of items for an array. It never fails. */
  function Count(e: Json): (r: nat)
    ensures e.Arr? ==> r == |e.items|
    ensures r == 0 <==> e.Null? || e == Arr([])
  {
    match e
    case Null => 0
    case Prim(_) => 1
    case Obj(_) => 1
    case Arr(items) => |items|
  }

  /** SizePlugin.flow delegates to CountPlugin. */
  function Size(e: Json): (r: nat)
    ensures e.Arr? ==> r == |e.items|
    ensures !e.Arr? ==> r <= 1
  {
    Count(e)
  }

  /** LengthFlow.flow and LengthPlugin.flow: 0 for JsonNull, the length of
      the string form of a primitive, the count of an array; an object is
      an IllegalJsonElement error. */
  function Length(e: Json): (r: Result<nat>)
    ensures r.Err? <==> e.Obj?
    ensures r.Err? ==> r.error == IllegalJsonElement
    ensures e.Arr? ==> r == Ok(Count(e))
    ensures e.Prim? ==> r == Ok(|e.text|)
  {
    match e
    case Null => Ok(0)
    case Prim(t) => Ok(|t|)
    case Obj(_) => Err(IllegalJsonElement)
    case Arr(_) => Ok(Count(e))
  }

  /** Count never fails and says how many values an element stands for:
      nothing for JsonNull, itself for a primitive or an object, every item
      for an array, whatever those items are. */
  lemma CountIsElementsHeld(e: Json)
    ensures Count(e) == 0 <==> e.Null? || e == Arr([])
    ensures Size(e) == Count(e)
    ensures e.Arr? ==> Count(e) == |e.items| && Length(e) == Ok(Count(e))
    ensures !e.Arr? && !e.Null? ==> Count(e) == 1
  {
  }

  /** `@people.age.count()`: the two ages give 2; "20" has length 2 and
      "Winterfell" length 10; a one-element array has length 1. */
  lemma CountAndLengthExamples(a: Json, b: Json)
    ensures Count(Arr([a, b])) == 2 && Size(Arr([a, b])) == 2
    ensures Length(Prim("20")) == Ok(2) && Length(Prim("Winterfell")) == Ok(10)
    ensures Length(Arr([a])) == Ok(1) && Length(Null) == Ok(0)
  {
  }

  // ---------------------------------------------------------------------
  // sum

  /** The primitives of an array read as decimals (getAsBigDecimal), in
      order; the first text that is not a number stops the stream. */
  function Parsed(items: seq<Json>): (r: Result<seq<Dec>>)
    ensures r.Err? ==> r.error == NumberFormat
  {
    if items == [] then Ok([])
    else if items[0].Prim? then
      var d :- DecimalText.Parse(items[0].text);
      var rest :- Parsed(items[1..]);
      Ok([d] + rest)
    else Parsed(items[1..])
  }

  /** Parsing fails exactly when some primitive is not a number; otherwise
      it holds one decimal per primitive, each the reading of its text. */
  lemma ParsedReadsEachPrimitive(items: seq<Json>)
    ensures var r := Parsed(items);
      && (r.Ok? <==> forall i :: 0 <= i < |items| && items[i].Prim? ==> DecimalText.Parse(items[i].text).Ok?)
      && (r.Ok? ==> |r.value| == |JsonCriteria.Primitives(items)|)
      && (r.Ok? ==> forall k :: 0 <= k < |r.value| ==>
            DecimalText.Parse(JsonCriteria.Primitives(items)[k].text) == Ok(r.value[k]))
  {
    ParsedFailsOnNonNumber(items);
    ParsedReadsPrimitives(items);
  }

  /** Parsing fails exactly when some primitive is not a number. */
  lemma {:induction false} ParsedFailsOnNonNumber(items: seq<Json>)
    ensures Parsed(items).Ok? <==> forall i :: 0 <= i < |items| && items[i].Prim? ==> DecimalText.Parse(items[i].text).Ok?
  {
    if items != [] {
      ParsedFailsOnNonNumber(items[1..]);
      assert forall i :: 0 <= i < |items| - 1 ==> items[1..][i] == items[i + 1];
    }
  }

  /** A successful parse holds one decimal per primitive, each the reading
      of its text. */
  lemma {:induction false} ParsedReadsPrimitives(items: seq<Json>)
    ensures var r := Parsed(items);
      && (r.Ok? ==> |r.value| == |JsonCriteria.Primitives(items)|)
      && (r.Ok? ==> forall k :: 0 <= k < |r.value| ==>
            DecimalText.Parse(JsonCriteria.Primitives(items)[k].text) == Ok(r.value[k]))
  {
    if items != [] {
      ParsedReadsPrimitives(items[1..]);
      var ps := JsonCriteria.Primitives(items[1..]);
      if items[0].Prim? {
        assert JsonCriteria.Primitives(items) == [items[0]] + ps;
      } else {
        assert JsonCriteria.Primitives(items) == ps;
      }
    }
  }

  /** `reduce(acc, BigDecimal::add)`: the left fold of additions. */
  function AddAll(acc: Dec, ds: seq<Dec>): (r: Dec)
    ensures r.scale >= acc.scale && forall k :: 0 <= k < |ds| ==> r.scale >= ds[k].scale
    decreases |ds|
  {
    if ds == [] then acc else AddAll(Add(acc, ds[0]), ds[1..])
  }

  /** SumFlow.flow and SumPlugin.flow: the decimal of a primitive, the sum
      of the top-level primitives of an array (nested arrays, objects and
      JsonNull items are skipped; an empty array gives 0); JsonNull and
      objects are IllegalJsonElement errors. */
  function Sum(e: Json): (r: Result<Dec>)
    ensures e.Null? || e.Obj? ==> r == Err(IllegalJsonElement)
    ensures e.Prim? ==> r == DecimalText.Parse(e.text)
  {
    match e
    case Null => Err(IllegalJsonElement)
    case Prim(t) => DecimalText.Parse(t)
    case Obj(_) => Err(IllegalJsonElement)
    case Arr(items) =>
      var ds :- Parsed(items);
      Ok(AddAll(Dec(0, 0), ds))
  }

  /** The largest scale among an accumulator and some decimals. */
  function MaxScale(acc: Dec, ds: seq<Dec>): (s: int)
    ensures s >= acc.scale && forall k :: 0 <= k < |ds| ==> s >= ds[k].scale
    decreases |ds|
  {
    if ds == [] then acc.scale else MaxScale(Add(acc, ds[0]), ds[1..])
  }

  /** The decimals written at the common scale `t` and added as integers. */
  function TotalAt(ds: seq<Dec>, t: int): int
    requires forall k :: 0 <= k < |ds| ==> t >= ds[k].scale
  {
    if ds == [] then 0 else Rescale(ds[0], t) + TotalAt(ds[1..], t)
  }

  /** The fold of additions is exact: at its own scale (the largest of all
      the scales) and at any finer one, it is the accumulator plus every
      decimal. */
  lemma {:induction false} AddAllIsExact(acc: Dec, ds: seq<Dec>, t: int)
    requires t >= acc.scale && forall k :: 0 <= k < |ds| ==> t >= ds[k].scale
    ensures AddAll(acc, ds).scale == MaxScale(acc, ds) <= t
    ensures Rescale(AddAll(acc, ds), t) == Rescale(acc, t) + TotalAt(ds, t)
    decreases |ds|
  {
    if ds != [] {
      var next := Add(acc, ds[0]);
      AddIsExact(acc, ds[0], t);
      assert forall k :: 0 <= k < |ds[1..]| ==> ds[1..][k] == ds[k + 1];
      AddAllIsExact(next, ds[1..], t);
    }
  }

  /** The sum of an array is exact: it fails exactly when some primitive is
      not a number, and otherwise, written at any scale fine enough for the
      parsed primitives, it is their total; only primitives count. */
  lemma SumOfArray(items: seq<Json>, t: int)
    requires Sum(Arr(items)).Ok?
    requires t >= 0 && forall k :: 0 <= k < |Parsed(items).value| ==> t >= Parsed(items).value[k].scale
    ensures forall i :: 0 <= i < |items| && items[i].Prim? ==> DecimalText.Parse(items[i].text).Ok?
    ensures Sum(Arr(items)).value.scale <= t
    ensures Rescale(Sum(Arr(items)).value, t) == TotalAt(Parsed(items).value, t)
    ensures Sum(Arr(items)) == Sum(Arr(JsonCriteria.Primitives(items)))
  {
    var ds := Parsed(items).value;
    ParsedReadsEachPrimitive(items);
    AddAllIsExact(Dec(0, 0), ds, t);
    assert Rescale(Dec(0, 0), t) == 0;
    ParsedPrimitives(items);
  }

  /** Only the primitives of an array are parsed. */
  lemma {:induction false} ParsedPrimitives(items: seq<Json>)
    ensures Parsed(JsonCriteria.Primitives(items)) == Parsed(items)
  {
    if items != [] {
      ParsedPrimitives(items[1..]);
      var ps := JsonCriteria.Primitives(items);
      if items[0].Prim? {
        assert ps == [items[0]] + JsonCriteria.Primitives(items[1..]);
        assert ps[1..] == JsonCriteria.Primitives(items[1..]);
      } else {
        assert ps == JsonCriteria.Primitives(items[1..]);
      }
    }
  }

  lemma ParsedCons(p: Json, rest: seq<Json>, d: Dec)
    requires p.Prim? && DecimalText.Parse(p.text) == Ok(d) && Parsed(rest).Ok?
    ensures Parsed([p] + rest) == Ok([d] + Parsed(rest).value)
  {
    assert ([p] + rest)[1..] == rest;
  }

  lemma ParsedSkip(p: Json, rest: seq<Json>)
    requires !p.Prim?
    ensures Parsed([p] + rest) == Parsed(rest)
  {
    assert ([p] + rest)[1..] == rest;
  }

  lemma AddAllTwo(acc: Dec, x: Dec, y: Dec)
    ensures AddAll(acc, [x, y]) == Add(Add(acc, x), y)
  {
    var ds := [x, y];
    assert ds[1..] == [y] && ds[1..][1..] == [];
    var first := Add(acc, x);
    assert AddAll(Add(first, y), ds[1..][1..]) == Add(first, y);
    assert AddAll(first, ds[1..]) == Add(first, y);
  }

  /** Two primitives, with or without an object between them, sum to
      their two decimals added. */
  lemma SumOfTwo(a: string, b: string, x: Dec, y: Dec, o: seq<Member>)
    requires DecimalText.Parse(a) == Ok(x) && DecimalText.Parse(b) == Ok(y)
    ensures Sum(Arr([Prim(a), Prim(b)])) == Ok(Add(Add(Dec(0, 0), x), y))
    ensures Sum(Arr([Prim(a), Obj(o), Prim(b)])) == Ok(Add(Add(Dec(0, 0), x), y))
  {
    assert Parsed([]) == Ok([]);
    ParsedCons(Prim(b), [], y);
    assert [Prim(b)] + [] == [Prim(b)] && [y] + [] == [y];
    ParsedCons(Prim(a), [Prim(b)], x);
    assert [Prim(a)] + [Prim(b)] == [Prim(a), Prim(b)] && [x] + [y] == [x, y];
    ParsedSkip(Obj(o), [Prim(b)]);
    assert [Obj(o)] + [Prim(b)] == [Obj(o), Prim(b)];
    ParsedCons(Prim(a), [Obj(o), Prim(b)], x);
    assert [Prim(a)] + [Obj(o), Prim(b)] == [Prim(a), Obj(o), Prim(b)];
    AddAllTwo(Dec(0, 0), x, y);
  }

  /** The ages "25" and "20" read as 25 and 20. */
  lemma AgeTexts(a: string, b: string)
    requires a == "25" && b == "20"
    ensures DecimalText.Parse(a) == Ok(Dec(25, 0)) && DecimalText.Parse(b) == Ok(Dec(20, 0))
  {
    assert a[..1] == "2" && DigitsValue(a[..1]) == 2;
    assert IsNumeric(a) && DigitsValue(a) == 25;
    assert b[..1] == "2" && DigitsValue(b[..1]) == 2;
    assert IsNumeric(b) && DigitsValue(b) == 20;
  }

  /** `@people.age.sum()` over the ages 25 and 20 is 45, and an object
      among the items changes nothing; an empty array sums to 0. */
  lemma SumExamples(a: string, b: string, o: seq<Member>)
    requires a == "25" && b == "20"
    ensures Sum(Arr([Prim(a), Prim(b)])) == Ok(Dec(45, 0))
    ensures Sum(Arr([Prim(a), Obj(o), Prim(b)])) == Ok(Dec(45, 0))
    ensures Sum(Arr([])) == Ok(Dec(0, 0))
  {
    SumOfAges(a, b, o);
    assert Parsed([]) == Ok([]);
  }

  lemma SumOfAges(a: string, b: string, o: seq<Member>)
    requires a == "25" && b == "20"
    ensures Sum(Arr([Prim(a), Prim(b)])) == Ok(Dec(45, 0))
    ensures Sum(Arr([Prim(a), Obj(o), Prim(b)])) == Ok(Dec(45, 0))
  {
    AgeTexts(a, b);
    var x, y := Dec(25, 0), Dec(20, 0);
    SumOfTwo(a, b, x, y, o);
    assert Add(Add(Dec(0, 0), x), y) == Dec(45, 0);
  }

  // ---------------------------------------------------------------------
  // avg

  /** AverageFlow.flow and AveragePlugin.flow with the precision and the
      rounding mode they captured: the sum of an array divided by the number
      of its items (every item, primitive or not) at that precision and
      mode; any other element gives its sum unchanged. An empty array is a
      division by zero, an invalid mode an IllegalArgument error. */
  function Average(e: Json, precision: int, mode: int): (r: Result<Dec>)
    ensures !e.Arr? ==> r == Sum(e)
    ensures r.Ok? && e.Arr? ==> r.value.scale == precision
  {
    var sum :- Sum(e);
    if e.Arr? then Divide(sum, Dec(|e.items|, 0), precision, mode)
    else Ok(sum)
  }

  /** The average of an array whose sum exists: a valid mode and at least
      one item always give a result, the sum divided by the number of items
      rounded to `precision` places (within one unit of the last place,
      within half a unit for the HALF modes); no item is a division by zero;
      a mode outside 0..7 is refused. */
  lemma AverageOfArray(items: seq<Json>, precision: int, mode: int)
    requires Sum(Arr(items)).Ok?
    ensures var r := Average(Arr(items), precision, mode);
      var nd := DivisionOperands(Sum(Arr(items)).value, Dec(|items|, 0), precision);
      && (mode < RoundUp || mode > RoundUnnecessary ==> r == Err(IllegalArgument))
      && (RoundUp <= mode <= RoundUnnecessary && items == [] ==> r == Err(Arithmetic))
      && (RoundUp <= mode < RoundUnnecessary && items != [] ==> r.Ok?)
      && (r.Ok? ==> AbsInt(r.value.unscaled * nd.1 - nd.0) < AbsInt(nd.1))
      && (r.Ok? && RoundHalfUp <= mode <= RoundHalfEven ==>
            2 * AbsInt(r.value.unscaled * nd.1 - nd.0) <= AbsInt(nd.1))
  {
    var sum := Sum(Arr(items)).value;
    if Average(Arr(items), precision, mode).Ok? {
      DivideIsClose(sum, Dec(|items|, 0), precision, mode);
    }
  }

  /** The ages 25 and 20 average to 22.50 at the default precision 2 and
      HALF_UP; the divisor counts an object item although the sum skips
      it; an empty array cannot be averaged. */
  lemma AverageExamples(a: string, b: string, o: seq<Member>, precision: int, mode: int)
    requires a == "25" && b == "20" && precision == 2 && mode == RoundHalfUp
    ensures Average(Arr([Prim(a), Prim(b)]), precision, mode) == Ok(Dec(2250, 2))
    ensures Average(Arr([Prim(a), Obj(o), Prim(b)]), precision, mode) == Ok(Dec(1500, 2))
    ensures Average(Arr([]), precision, mode) == Err(Arithmetic)
  {
    SumExamples(a, b, o);
    assert Pow10(precision) == 100;
    assert DivisionOperands(Dec(45, 0), Dec(2, 0), precision) == (4500, 2);
    assert DivisionOperands(Dec(45, 0), Dec(3, 0), precision) == (4500, 3);
    assert DivRem(4500, 2) == (2250, 0);
    assert DivRem(4500, 3) == (1500, 0);
  }

  /** The average 22.50 is printed with its two decimal places. */
  lemma AverageText()
    ensures DecimalText.ToString(Dec(2250, 2)) == "22.50"
  {
    assert NatToString(2250) == "2250";
  }

  // ---------------------------------------------------------------------
  // min and max

  /** max() looks for the greatest value, min() for the least. */
  datatype Direction = Greatest | Least

  /** BigDecimal.max or BigDecimal.min. */
  function Better(dir: Direction, a: Dec, b: Dec): (r: Dec)
    ensures r == a || r == b
    ensures NoWorse(dir, r, a) && NoWorse(dir, r, b)
  {
    if dir == Greatest then Max(a, b) else Min(a, b)
  }

  /** `a` is at least as far in the direction as `b`. */
  predicate NoWorse(dir: Direction, a: Dec, b: Dec) {
    if dir == Greatest then Compare(a, b) >= 0 else Compare(a, b) <= 0
  }

  lemma NoWorseTransitive(dir: Direction, a: Dec, b: Dec, c: Dec)
    requires NoWorse(dir, a, b) && NoWorse(dir, b, c)
    ensures NoWorse(dir, a, c)
  {
    CompareTransitive(a, b, c);
  }

  /** MaxFlow.flow (Greatest, from the MIN_VALUE sentinel) and MinPlugin.flow
      (Least, from the MAX_VALUE sentinel): the decimal of a primitive; for
      an array, the extreme of its non-null items taken recursively, folded
      from the sentinel; JsonNull and objects (also inside an array) are
      IllegalJsonElement errors. */
  function Extreme(dir: Direction, sentinel: Dec, e: Json): (r: Result<Dec>)
    ensures e.Null? || e.Obj? ==> r == Err(IllegalJsonElement)
    ensures e.Prim? ==> r == DecimalText.Parse(e.text)
    decreases e, 1
  {
    match e
    case Null => Err(IllegalJsonElement)
    case Prim(t) => DecimalText.Parse(t)
    case Obj(_) => Err(IllegalJsonElement)
    case Arr(items) => Fold(dir, sentinel, ItemExtremes(dir, sentinel, e))
  }

  /** What each item of an array contributes: nothing for JsonNull, its own
      extreme otherwise. */
  function ItemExtremes(dir: Direction, sentinel: Dec, a: Json): (r: seq<Option<Result<Dec>>>)
    requires a.Arr?
    ensures |r| == |a.items|
    ensures forall i :: 0 <= i < |a.items| ==>
      r[i] == if a.items[i].Null? then None else Some(Extreme(dir, sentinel, a.items[i]))
    decreases a, 0
  {
    seq(|a.items|, i requires 0 <= i < |a.items| =>
      if a.items[i].Null? then None else Some(Extreme(dir, sentinel, a.items[i])))
  }

  /** `reduce(sentinel, max)` (or min) over the contributions, in order; the
      first failing item stops it. */
  function Fold(dir: Direction, acc: Dec, outs: seq<Option<Result<Dec>>>): (r: Result<Dec>)
    ensures r.Ok? <==> forall i :: 0 <= i < |outs| && outs[i].Some? ==> outs[i].value.Ok?
    decreases |outs|
  {
    if outs == [] then Ok(acc)
    else
      assert forall i :: 1 <= i < |outs| ==> outs[i] == outs[1..][i - 1];
      match outs[0]
      case None => Fold(dir, acc, outs[1..])
      case Some(r) =>
        if r.Err? then Err(r.error) else Fold(dir, Better(dir, acc, r.value), outs[1..])
  }

  /** The fold's result is no worse than the start and than every
      contribution, and it is the start or one of the contributions. */
  lemma {:induction false} FoldIsExtreme(dir: Direction, acc: Dec, outs: seq<Option<Result<Dec>>>)
    requires Fold(dir, acc, outs).Ok?
    ensures var m := Fold(dir, acc, outs).value;
      && NoWorse(dir, m, acc)
      && (forall i :: 0 <= i < |outs| && outs[i].Some? ==> NoWorse(dir, m, outs[i].value.value))
      && (m == acc || exists i :: 0 <= i < |outs| && outs[i] == Some(Ok(m)))
    decreases |outs|
  {
    var m := Fold(dir, acc, outs).value;
    CompareAntisymmetric(acc, acc);
    if outs != [] {
      var tail := outs[1..];
      assert forall i :: 1 <= i < |outs| ==> outs[i] == tail[i - 1];
      var next := if outs[0].None? then acc else Better(dir, acc, outs[0].value.value);
      assert Fold(dir, next, tail) == Fold(dir, acc, outs);
      FoldIsExtreme(dir, next, tail);
      NoWorseTransitive(dir, m, next, acc);
      if outs[0].Some? {
        NoWorseTransitive(dir, m, next, outs[0].value.value);
      }
      if m != next {
        var i :| 0 <= i < |tail| && tail[i] == Some(Ok(m));
        assert outs[i + 1] == Some(Ok(m));
      } else if next != acc {
        assert outs[0] == Some(Ok(m));
      }
    }
  }

  /** The extreme of an array: it exists exactly when every non-null item
      has one; it is no worse than the sentinel and than every non-null
      item's extreme, and it is the sentinel or one of those. So an empty
      or all-null array gives the sentinel, and an object anywhere among the
      items is an error. */
  lemma ExtremeOfArray(dir: Direction, sentinel: Dec, items: seq<Json>)
    ensures var r := Extreme(dir, sentinel, Arr(items));
      && (r.Ok? <==> forall i :: 0 <= i < |items| && !items[i].Null? ==> Extreme(dir, sentinel, items[i]).Ok?)
      && (r.Ok? ==> NoWorse(dir, r.value, sentinel))
      && (r.Ok? ==> forall i :: 0 <= i < |items| && !items[i].Null? ==>
            NoWorse(dir, r.value, Extreme(dir, sentinel, items[i]).value))
      && (r.Ok? ==> (r.value == sentinel ||
            exists i :: 0 <= i < |items| && !items[i].Null? && Extreme(dir, sentinel, items[i]) == r))
  {
    var outs := ItemExtremes(dir, sentinel, Arr(items));
    var r := Extreme(dir, sentinel, Arr(items));
    assert r == Fold(dir, sentinel, outs);
    if r.Ok? {
      FoldIsExtreme(dir, sentinel, outs);
      if r.value != sentinel {
        var i :| 0 <= i < |outs| && outs[i] == Some(Ok(r.value));
        assert !items[i].Null? && Extreme(dir, sentinel, items[i]) == r;
      }
    }
  }

  /** An array of nulls (or none at all) gives the sentinel. */
  lemma {:induction false} NullsGiveSentinel(dir: Direction, sentinel: Dec, outs: seq<Option<Result<Dec>>>)
    requires forall i :: 0 <= i < |outs| ==> outs[i].None?
    ensures Fold(dir, sentinel, outs) == Ok(sentinel)
    decreases |outs|
  {
    if outs != [] {
      NullsGiveSentinel(dir, sentinel, outs[1..]);
    }
  }

  lemma AllNullGivesSentinel(dir: Direction, sentinel: Dec, items: seq<Json>)
    requires forall i :: 0 <= i < |items| ==> items[i].Null?
    ensures Extreme(dir, sentinel, Arr(items)) == Ok(sentinel)
  {
    NullsGiveSentinel(dir, sentinel, ItemExtremes(dir, sentinel, Arr(items)));
  }

  /** The extreme of a two-element array of numeric texts is the sentinel
      folded with both numbers, in order. */
  lemma ExtremeOfTwo(dir: Direction, sentinel: Dec, a: string, b: string, x: Dec, y: Dec)
    requires DecimalText.Parse(a) == Ok(x) && DecimalText.Parse(b) == Ok(y)
    ensures Extreme(dir, sentinel, Arr([Prim(a), Prim(b)])) == Ok(Better(dir, Better(dir, sentinel, x), y))
  {
    var e := Arr([Prim(a), Prim(b)]);
    var outs := ItemExtremes(dir, sentinel, e);
    assert outs[0] == Some(Ok(x)) && outs[1] == Some(Ok(y));
    assert outs == [Some(Ok(x)), Some(Ok(y))];
    FoldTwo(dir, sentinel, x, y);
  }

  /** max of the ages 25 and 20 is 25 and min is 20, whatever the sentinels,
      of any scale, as long as they lie beyond the ages, as MIN_VALUE and
      MAX_VALUE do. */
  lemma ExtremeExamples(a: string, b: string, lowest: Dec, highest: Dec)
    requires a == "25" && b == "20"
    requires Compare(lowest, Dec(20, 0)) < 0 && Compare(highest, Dec(25, 0)) > 0
    ensures Extreme(Greatest, lowest, Arr([Prim(a), Prim(b)])) == Ok(Dec(25, 0))
    ensures Extreme(Least, highest, Arr([Prim(a), Prim(b)])) == Ok(Dec(20, 0))
  {
    AgeTexts(a, b);
    var x, y := Dec(25, 0), Dec(20, 0);
    ExtremeOfTwo(Greatest, lowest, a, b, x, y);
    ExtremeOfTwo(Least, highest, a, b, x, y);
    var t := MaxInt(0, MaxInt(lowest.scale, highest.scale));
    CompareIsByValue(lowest, y, t);
    CompareIsByValue(lowest, x, t);
    CompareIsByValue(highest, x, t);
    CompareIsByValue(x, y, t);
    assert Compare(lowest, x) < 0 && Compare(x, y) > 0;
  }

  lemma FoldTwo(dir: Direction, acc: Dec, x: Dec, y: Dec)
    ensures Fold(dir, acc, [Some(Ok(x)), Some(Ok(y))]) == Ok(Better(dir, Better(dir, acc, x), y))
  {
    var outs := [Some(Ok(x)), Some(Ok(y))];
    assert outs[1..] == [Some(Ok(y))] && outs[1..][1..] == [];
    var first := Better(dir, acc, x);
    assert Fold(dir, first, outs[1..][1..]) == Ok(first);
    assert Fold(dir, acc, outs) == Fold(dir, first, outs[1..]);
  }

  /** An object nested inside an array stops max() and min(). */
  lemma NestedObjectFails(dir: Direction, sentinel: Dec, items: seq<Json>, i: nat)
    requires i < |items| && items[i].Obj?
    ensures Extreme(dir, sentinel, Arr(items)).Err?
  {
    ExtremeOfArray(dir, sentinel, items);
  }
}
