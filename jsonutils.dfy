/** Resolving one path segment against a JSON object, writing a property
    back into an object, and emptying an array in place. */
module JsonUtils {
  import opened Results
  import opened Strings
  import opened JsonValues
  import opened Paths
  import Slices

  /** Java int addition: the exact sum wrapped into the 32-bit range. */
  function Wrap32(x: int): (r: int)
    ensures IsInt32(r)
    ensures IsInt32(x) ==> r == x
    ensures (r - x) % 0x1_0000_0000 == 0
  {
    (x - IntMin) % 0x1_0000_0000 + IntMin
  }

  /** The indexes `IntStream.iterate(i, i -> i + step).limit(count)
      .filter(i -> i < end)` produces, in order; every addition wraps. */
  function SliceIndexes(i: int, step: int, count: nat, end: int): (r: seq<int>)
    ensures forall k :: 0 <= k < |r| ==> r[k] < end
    ensures |r| <= count
    decreases count
  {
    if count == 0 then []
    else (if i < end then [i] else []) + SliceIndexes(Wrap32(i + step), step, count - 1, end)
  }

  /** The items at the given indexes (`jsonArray::get`); an index outside
      the array is an IndexOutOfBounds error. */
  function Pick(items: seq<Json>, indexes: seq<int>): (r: Result<seq<Json>>)
    ensures r.Ok? <==> forall k :: 0 <= k < |indexes| ==> 0 <= indexes[k] < |items|
    ensures r.Ok? ==> |r.value| == |indexes|
    ensures r.Ok? ==> forall k :: 0 <= k < |indexes| ==> r.value[k] == items[indexes[k]]
    ensures r.Err? ==> r.error == IndexOutOfBounds
  {
    if indexes == [] then Ok([])
    else if 0 <= indexes[0] < |items| then
      match Pick(items, indexes[1..])
      case Ok(rest) => Ok([items[indexes[0]]] + rest)
      case Err(e) => Err(e)
    else Err(IndexOutOfBounds)
  }

  /** A fresh array of the items a slice selects: from the start index,
      step by step, for as many steps as the clamped end index, keeping the
      indexes below that end. */
  function SelectSlice(items: seq<Json>, s: Slices.Slice): (r: Result<Json>)
    ensures r.Ok? ==> r.value.Arr? && |r.value.items| <= |items|
    ensures r.Ok? ==> forall k :: 0 <= k < |r.value.items| ==> r.value.items[k] in items
    ensures r.Err? ==> r.error == IndexOutOfBounds
  {
    var end := s.EndIndexWithin(|items|);
    var picked :- Pick(items, SliceIndexes(s.StartIndex(), s.Step(), end, end));
    Ok(Arr(picked))
  }

  /** `JsonUtils.getPropertyByPath`: the named property (JsonNull when
      absent), the item at its index, or the items of its slice. */
  function PropertyByPath(members: seq<Member>, path: string): (r: Result<Json>)
    ensures var name := FindPropertyName(path);
      var element := if Has(members, name) then Get(members, name).value else Null;
      r.Ok? ==> || r.value == element
                || (element.Arr? && r.value in element.items)
                || (element.Arr? && r.value.Arr? && forall k :: 0 <= k < |r.value.items| ==> r.value.items[k] in element.items)
    ensures !Has(members, FindPropertyName(path)) && r.Ok? ==> r.value == Null
  {
    var name := FindPropertyName(path);
    var element := if Has(members, name) then Get(members, name).value else Null;
    var rawIndex := FindRawIndex(path);
    var index :- FindIndex(rawIndex);
    if index != NotFound then
      if !element.Arr? then Err(IllegalJsonElement)
      else if 0 <= index < |element.items| then Ok(element.items[index])
      else Err(IndexOutOfBounds)
    else if IsSlice(rawIndex) then
      if !element.Arr? then Err(IllegalState)
      else
        var slice :- Slices.SliceFrom(rawIndex);
        SelectSlice(element.items, slice)
    else Ok(element)
  }

  /** The indexes start, start + step, ... that lie below the end, without
      any wrap-around: the selection the slice syntax describes. */
  function Stepped(i: int, step: int, end: int): (r: seq<int>)
    requires step >= 1
    ensures forall k :: 0 <= k < |r| ==> r[k] == i + k * step && r[k] < end
    ensures i + |r| * step >= end
    decreases end - i
  {
    if i < end then [i] + Stepped(i + step, step, end) else []
  }

  /** While no addition overflows, the stream of indexes is exactly the
      stepped selection: the limit never cuts it short. */
  lemma {:induction false} IndexesAreStepped(i: int, step: int, count: nat, end: int)
    requires 0 <= i && step >= 1
    requires count >= end - i
    requires count >= 1 ==> i + (count - 1) * step <= IntMax
    ensures SliceIndexes(i, step, count, end) == Stepped(i, step, end)
    decreases count
  {
    if count == 0 {
    } else if count == 1 {
      assert i + step >= end;
      assert Stepped(i + step, step, end) == [];
    } else {
      NextStepFits(i, step, count);
      assert Wrap32(i + step) == i + step;
      assert SliceIndexes(i, step, count, end)
        == (if i < end then [i] else []) + SliceIndexes(i + step, step, count - 1, end);
      IndexesAreStepped(i + step, step, count - 1, end);
    }
  }

  lemma NextStepFits(i: int, step: int, count: nat)
    requires step >= 1 && count >= 2 && i + (count - 1) * step <= IntMax
    ensures i + step <= IntMax && (i + step) + (count - 2) * step <= IntMax
  {
    assert (count - 1) * step == step + (count - 2) * step;
  }

  /** A slice with a non-negative start and a positive step whose visited
      indexes stay within the int range selects the items at start,
      start + step, ... strictly below the clamped end, in order. */
  lemma SliceSelectsEveryStep(items: seq<Json>, s: Slices.Slice)
    requires s.StartIndex() >= 0 && s.Step() >= 1
    requires s.StartIndex() + |items| * s.Step() <= IntMax
    ensures var end := s.EndIndexWithin(|items|);
      var picked := Stepped(s.StartIndex(), s.Step(), end);
      && SelectSlice(items, s).Ok? && SelectSlice(items, s).value.Arr?
      && |SelectSlice(items, s).value.items| == |picked|
      && forall k :: 0 <= k < |picked| ==>
           0 <= picked[k] < |items| && SelectSlice(items, s).value.items[k] == items[picked[k]]
  {
    var end := s.EndIndexWithin(|items|);
    var start, step := s.StartIndex(), s.Step();
    if end >= 1 {
      assert (end - 1) * step <= |items| * step;
    }
    IndexesAreStepped(start, step, end, end);
    var picked := Stepped(start, step, end);
    forall k | 0 <= k < |picked|
      ensures 0 <= picked[k] < |items|
    {
      NonNegativeStep(start, k, step);
    }
  }

  lemma NonNegativeStep(start: int, k: nat, step: int)
    requires start >= 0 && step >= 1
    ensures start + k * step >= 0
  {
  }

  /** A step of 0 repeats the start item once for each position below the
      clamped end. */
  lemma {:induction false} ZeroStepRepeats(i: int, count: nat, end: int)
    requires IsInt32(i) && i < end
    ensures SliceIndexes(i, 0, count, end) == seq(count, k => i)
    decreases count
  {
    if count > 0 {
      ZeroStepRepeats(i, count - 1, end);
    }
  }

  /** `[0:2]` on a two-item array selects both items. */
  lemma FirstTwo(a: Json, b: Json)
    ensures SelectSlice([a, b], Slices.Slice(0, 2, Slices.NotFound)) == Ok(Arr([a, b]))
  {
    var s := Slices.Slice(0, 2, Slices.NotFound);
    assert s.EndIndexWithin(2) == 2 && s.Step() == 1;
    assert SliceIndexes(2, 1, 0, 2) == [];
    assert SliceIndexes(1, 1, 1, 2) == [1];
    assert SliceIndexes(0, 1, 2, 2) == [0, 1];
    var picked := Pick([a, b], [0, 1]);
    assert picked.Ok? && |picked.value| == 2;
    assert picked.value == [a, b];
  }

  /** `[1::2]` selects the items at the odd positions 1, 3, 5, ... in order. */
  lemma EveryOtherFromOne(items: seq<Json>)
    requires 2 * |items| < IntMax
    ensures var r := SelectSlice(items, Slices.Slice(1, Slices.NotFound, 2));
      && r.Ok? && r.value.Arr? && |r.value.items| == |items| / 2
      && forall k :: 0 <= k < |items| / 2 ==> r.value.items[k] == items[2 * k + 1]
  {
    var s := Slices.Slice(1, Slices.NotFound, 2);
    assert s.EndIndexWithin(|items|) == |items| && s.StartIndex() == 1 && s.Step() == 2;
    SliceSelectsEveryStep(items, s);
    var picked := Stepped(1, 2, |items|);
    if |picked| > 0 {
      assert picked[|picked| - 1] == 1 + (|picked| - 1) * 2 < |items|;
    }
    HalfCount(|items|, |picked|);
    var r := SelectSlice(items, s).value.items;
    forall k | 0 <= k < |items| / 2
      ensures r[k] == items[2 * k + 1]
    {
      assert picked[k] == 1 + k * 2;
    }
  }

  /** The count of odd numbers below `n`. */
  lemma HalfCount(n: nat, c: nat)
    requires 1 + c * 2 >= n && (c > 0 ==> 1 + (c - 1) * 2 < n)
    ensures c == n / 2
  {
  }

  /** A step so large that the second addition wraps around produces a
      negative index below the end, which the array rejects: `[0:5:2147483647]`
      on five items fails instead of selecting the first item alone. */
  lemma HugeStepWraps(items: seq<Json>)
    requires |items| == 5
    ensures SelectSlice(items, Slices.Slice(0, 5, IntMax)) == Err(IndexOutOfBounds)
  {
    var s := Slices.Slice(0, 5, IntMax);
    assert s.StartIndex() == 0 && s.Step() == IntMax && s.EndIndexWithin(|items|) == 5;
    assert Wrap32(0 + IntMax) == IntMax;
    assert Wrap32(IntMax + IntMax) == -2;
    var rest := SliceIndexes(-2, IntMax, 3, 5);
    var indexes := SliceIndexes(0, IntMax, 5, 5);
    assert indexes == [0] + SliceIndexes(IntMax, IntMax, 4, 5);
    assert SliceIndexes(IntMax, IntMax, 4, 5) == rest;
    assert indexes[1] == rest[0] == -2;
    assert Pick(items, indexes).Err?;
  }

  /** A plain segment (no bracket or parenthesis after its first
      character) resolves to the property itself, JsonNull when absent. */
  lemma PlainSegment(members: seq<Member>, path: string)
    requires IndexOf(path, '[') <= 0 && IndexOf(path, '(') <= 0
    ensures var name := Trim(path);
      PropertyByPath(members, path) == Ok(if Has(members, name) then Get(members, name).value else Null)
  {
    assert FindRawIndex(path) == [];
    assert IsBlank([]) && !IsSlice([]);
    assert FindIndex([]) == Ok(NotFound);
    assert FindPropertyName(path) == Trim(path);
  }

  /** `name[n]` for an int n other than -1 is the n-th item of the named
      array; a non-array property fails, and so does an index outside the
      array. */
  lemma IndexedProperty(members: seq<Member>, name: string, n: int)
    requires name != [] && '[' !in name && ']' !in name && '(' !in name && ')' !in name
    requires IsInt32(n) && n != NotFound
    ensures var element := if Has(members, name) then Get(members, name).value else Null;
      PropertyByPath(members, name + "[" + IntToString(n) + "]") ==
        if !element.Arr? then Err(IllegalJsonElement)
        else if 0 <= n < |element.items| then Ok(element.items[n])
        else Err(IndexOutOfBounds)
  {
    var index := IntToString(n);
    NoColonInNumber(n);
    ParseIntRoundTrip(n);
    assert forall i :: 0 <= i < |index| ==> IsDigit(index[i]) || index[i] == '-';
    IndexedSegment(name, index);
    IndexRoundTrip(n);
  }

  /** `JsonUtils.addOrRemoveObjectAttribute`: a present, non-null attribute
      is put under the property name; otherwise the property is removed. */
  function AddOrRemoveObjectAttribute(members: seq<Member>, attribute: Option<Json>, path: string): (r: seq<Member>)
    ensures var name := FindPropertyName(path);
      attribute.Some? && !attribute.value.Null? ==> |r| == if Has(members, name) then |members| else |members| + 1
    ensures !(attribute.Some? && !attribute.value.Null?) ==> |r| <= |members|
    ensures !(attribute.Some? && !attribute.value.Null?) && !Has(members, FindPropertyName(path)) ==> r == members
  {
    var name := FindPropertyName(path);
    if attribute.Some? && !attribute.value.Null? then Put(members, name, attribute.value)
    else Remove(members, name)
  }

  /** The property ends up holding the attribute, or absent; names stay
      unique and every other property keeps its value. */
  lemma AttributeWritten(members: seq<Member>, attribute: Option<Json>, path: string)
    requires UniqueNames(members)
    ensures var r := AddOrRemoveObjectAttribute(members, attribute, path);
      var name := FindPropertyName(path);
      && UniqueNames(r)
      && Get(r, name) == (if attribute.Some? && !attribute.value.Null? then attribute else None)
      && forall other :: other != name ==> Get(r, other) == Get(members, other)
  {
    var name := FindPropertyName(path);
    var r := AddOrRemoveObjectAttribute(members, attribute, path);
    if attribute.Some? && !attribute.value.Null? {
      PutKeepsUnique(members, name, attribute.value);
      forall other | other != name
        ensures Get(r, other) == Get(members, other)
      {
        GetPut(members, name, attribute.value, other);
      }
      GetPut(members, name, attribute.value, name);
    } else {
      RemoveKeepsUnique(members, name);
      forall other | other != name
        ensures Get(r, other) == Get(members, other)
      {
        GetRemove(members, name, other);
      }
      GetRemove(members, name, name);
    }
  }

  /** A JSON array whose items are changed in place. */
  class JsonArrayRef {
    var items: seq<Json>

    constructor(items: seq<Json>)
      ensures this.items == items
    {
      this.items := items;
    }

    /** `JsonArray.addAll`: appends the items of another array. */
    method AddAll(other: seq<Json>)
      modifies this
      ensures items == old(items) + other
    {
      items := items + other;
    }
  }

  /** `JsonUtils.clearJsonArray`: removes the first item until none is left
      and hands back the same array. */
  method ClearJsonArray(a: JsonArrayRef) returns (r: JsonArrayRef)
    modifies a
    ensures r == a && a.items == []
  {
    while |a.items| > 0
      decreases |a.items|
    {
      a.items := a.items[1..];
    }
    r := a;
  }
}
