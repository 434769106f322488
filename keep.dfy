// KeepFlow: a query that filters a copy of the document in place, keeping
// its shape. The copy is the root value threaded through the walk; the
// element the walk stands on is a cursor into it, so that a change made to
// the current element is a change made to the root.

module Keep {
  import opened Results
  import opened Strings
  import opened Tokens
  import opened JsonValues
  import opened Paths
  import JsonUtils
  import opened JsonCriteria
  import opened Settings
  import opened Queries

  // ---------------------------------------------------------------------
  // handleObject

  /** What handleObject leaves behind: the object's members afterwards and
      the element it yields. */
  datatype Handled = Handled(members: seq<Member>, result: Json)

  /** KeepFlow.handleObject. With a criterion, the property (JsonNull when
      absent) is filtered under the strategy and the outcome is written back
      under the property name, or the property is removed when the outcome
      is JsonNull. Without one, the property's value is yielded (JsonNull
      when absent) and the object is left alone; an index in the segment is
      then ignored. */
  function HandleObject(strategy: Strategy, members: seq<Member>, path: string): (r: Result<Handled>)
    ensures r.Ok? && !r.value.result.Null? ==> Get(r.value.members, FindPropertyName(path)) == Some(r.value.result)
    ensures !IsCriterion(FindCriterion(path)) ==> r.Ok? && r.value.members == members
    ensures !IsCriterion(FindCriterion(path)) && Has(members, FindPropertyName(path)) ==>
      r.value.result == Get(members, FindPropertyName(path)).value
    ensures !IsCriterion(FindCriterion(path)) && !Has(members, FindPropertyName(path)) ==> r.value.result.Null?
  {
    var criterion := FindCriterion(path);
    if IsCriterion(criterion) then
      var element :- JsonUtils.PropertyByPath(members, path);
      var filtered :- FilterFlow(strategy, criterion, Some(element));
      GetPut(members, FindPropertyName(path), filtered, FindPropertyName(path));
      Ok(Handled(JsonUtils.AddOrRemoveObjectAttribute(members, Some(filtered), path), filtered))
    else
      var name := FindPropertyName(path);
      Ok(Handled(members, if Has(members, name) then Get(members, name).value else Null))
  }

  /** With a criterion, handleObject fails exactly when reading or filtering
      the property fails; otherwise the property holds the filtered value
      (or is gone when that is JsonNull), names stay unique and every other
      property keeps its value. */
  lemma CriterionWritesBack(strategy: Strategy, members: seq<Member>, path: string)
    requires UniqueNames(members) && IsCriterion(FindCriterion(path))
    ensures var r := HandleObject(strategy, members, path);
      var element := JsonUtils.PropertyByPath(members, path);
      && (element.Err? ==> r == Err(element.error))
      && (element.Ok? ==> var filtered := FilterFlow(strategy, FindCriterion(path), Some(element.value));
            && (filtered.Err? ==> r == Err(filtered.error))
            && (filtered.Ok? ==> r.Ok? && r.value.result == filtered.value))
    ensures var r := HandleObject(strategy, members, path);
      var name := FindPropertyName(path);
      r.Ok? ==> && UniqueNames(r.value.members)
                && Get(r.value.members, name) == (if r.value.result.Null? then None else Some(r.value.result))
                && forall other :: other != name ==> Get(r.value.members, other) == Get(members, other)
  {
    var r := HandleObject(strategy, members, path);
    if r.Ok? {
      JsonUtils.AttributeWritten(members, Some(r.value.result), path);
    }
  }

  /** A criterion that lets the property through unchanged leaves the object
      as it was: keeping everything is the identity. */
  lemma KeepingAllChangesNothing(strategy: Strategy, members: seq<Member>, path: string)
    requires IsCriterion(FindCriterion(path)) && FindRawIndex(path) == []
    requires Has(members, FindPropertyName(path)) && !Get(members, FindPropertyName(path)).value.Null?
    requires FilterFlow(strategy, FindCriterion(path), Get(members, FindPropertyName(path))) == Ok(Get(members, FindPropertyName(path)).value)
    ensures HandleObject(strategy, members, path) == Ok(Handled(members, Get(members, FindPropertyName(path)).value))
  {
    assert FindIndex(FindRawIndex(path)) == Ok(NotFound);
    PutSame(members, FindPropertyName(path));
  }

  // ---------------------------------------------------------------------
  // handleArray

  /** Positions listed in increasing order. */
  predicate Increasing(indexes: seq<int>) {
    forall i, j :: 0 <= i < j < |indexes| ==> indexes[i] < indexes[j]
  }

  /** Positions that all lie in an array of n items. */
  predicate Within(indexes: seq<int>, n: int) {
    forall i :: 0 <= i < |indexes| ==> 0 <= indexes[i] < n
  }

  /** 0, 1, ..., n - 1. */
  function AllIndexes(n: nat): (r: seq<int>)
    ensures |r| == n && Within(r, n) && Increasing(r)
    ensures forall i :: 0 <= i < n ==> r[i] == i
  {
    seq(n, i => i)
  }

  /** The items at the listed positions, in the order listed. */
  function ItemsAt(items: seq<Json>, indexes: seq<int>): (r: seq<Json>)
    requires Within(indexes, |items|)
    ensures |r| == |indexes| && forall i :: 0 <= i < |indexes| ==> r[i] == items[indexes[i]]
  {
    seq(|indexes|, i requires 0 <= i < |indexes| => items[indexes[i]])
  }

  /** What one item of handleArray's loop turns into, and whether it is kept. */
  datatype ItemOutcome = ItemOutcome(item: Json, keep: bool)

  /** One pass of handleArray's loop: an object is handled (and stays
      changed whatever happens to it) and is kept unless handleObject yields
      JsonNull; any other item is kept as it is. */
  function HandleItem(strategy: Strategy, item: Json, path: string): (r: Result<ItemOutcome>)
    ensures !item.Obj? ==> r == Ok(ItemOutcome(item, true))
    ensures item.Obj? ==> (r.Ok? <==> HandleObject(strategy, item.members, path).Ok?)
    ensures item.Obj? && r.Ok? ==>
      && r.value.item.Obj?
      && r.value.item.members == HandleObject(strategy, item.members, path).value.members
      && (r.value.keep <==> !HandleObject(strategy, item.members, path).value.result.Null?)
  {
    if item.Obj? then
      var h :- HandleObject(strategy, item.members, path);
      Ok(ItemOutcome(Obj(h.members), !h.result.Null?))
    else Ok(ItemOutcome(item, true))
  }

  /** handleArray's handling of one item under a strategy and a segment. */
  function Handler(strategy: Strategy, path: string): Json -> Result<ItemOutcome> {
    item => HandleItem(strategy, item, path)
  }

  /** The state of handleArray's loop: the array's items as changed so far
      and the positions kept so far. */
  datatype Kept = Kept(items: seq<Json>, kept: seq<int>)

  /** handleArray's loop from some point on: the listed positions are visited
      in order, each one handled in the array as it stands; the first
      failure ends the loop. */
  function Visit(handle: Json -> Result<ItemOutcome>, items: seq<Json>, indexes: seq<int>, kept: seq<int>): (r: Result<Kept>)
    requires Within(indexes, |items|)
    ensures r.Ok? ==> |r.value.items| == |items|
    decreases |indexes|
  {
    if indexes == [] then Ok(Kept(items, kept))
    else
      var k := indexes[0];
      var o :- handle(items[k]);
      Visit(handle, items[k := o.item], indexes[1..], if o.keep then kept + [k] else kept)
  }

  /** One visit of the loop, unfolded. */
  lemma VisitStep(handle: Json -> Result<ItemOutcome>, items: seq<Json>, indexes: seq<int>, kept: seq<int>)
    requires Within(indexes, |items|) && indexes != []
    ensures handle(items[indexes[0]]).Err? ==> Visit(handle, items, indexes, kept) == Err(handle(items[indexes[0]]).error)
    ensures handle(items[indexes[0]]).Ok? ==>
      var o := handle(items[indexes[0]]).value;
      Visit(handle, items, indexes, kept)
        == Visit(handle, items[indexes[0] := o.item], indexes[1..], if o.keep then kept + [indexes[0]] else kept)
  {
  }

  /** The reference reading of handleArray: every listed item handled on its
      own, in the array as it was before the loop. */
  function Outcomes(handle: Json -> Result<ItemOutcome>, items: seq<Json>, indexes: seq<int>): (r: seq<Result<ItemOutcome>>)
    requires Within(indexes, |items|)
    ensures |r| == |indexes|
    ensures forall i :: 0 <= i < |indexes| ==> r[i] == handle(items[indexes[i]])
  {
    seq(|indexes|, i requires 0 <= i < |indexes| => handle(items[indexes[i]]))
  }

  /** Every outcome is a success. */
  predicate AllOk(outs: seq<Result<ItemOutcome>>) {
    forall i :: 0 <= i < |outs| ==> outs[i].Ok?
  }

  /** The positions whose outcome says keep, in order. */
  function KeptOf(indexes: seq<int>, outs: seq<Result<ItemOutcome>>): (r: seq<int>)
    requires |outs| == |indexes| && AllOk(outs)
    ensures |r| <= |indexes|
    ensures forall k :: 0 <= k < |r| ==> r[k] in indexes
  {
    if indexes == [] then []
    else (if outs[0].value.keep then [indexes[0]] else []) + KeptOf(indexes[1..], outs[1..])
  }

  /** Handling an item changes only that item, so the outcomes of the
      positions still to come are the same in the changed array. */
  lemma LaterOutcomes(handle: Json -> Result<ItemOutcome>, items: seq<Json>, indexes: seq<int>, v: Json)
    requires Within(indexes, |items|) && Increasing(indexes) && indexes != []
    ensures Within(indexes[1..], |items[indexes[0] := v]|)
    ensures Outcomes(handle, items[indexes[0] := v], indexes[1..]) == Outcomes(handle, items, indexes)[1..]
  {
    var later := Outcomes(handle, items[indexes[0] := v], indexes[1..]);
    forall i | 0 <= i < |later|
      ensures later[i] == Outcomes(handle, items, indexes)[i + 1]
    {
      assert indexes[1..][i] == indexes[i + 1] != indexes[0];
    }
  }

  /** handleArray's loop succeeds exactly when every listed item can be
      handled on its own, and it then keeps exactly the positions whose
      outcome says keep, in their order. */
  lemma {:induction false} VisitKeeps(handle: Json -> Result<ItemOutcome>, items: seq<Json>, indexes: seq<int>, kept: seq<int>)
    requires Within(indexes, |items|) && Increasing(indexes)
    ensures var r := Visit(handle, items, indexes, kept);
      var outs := Outcomes(handle, items, indexes);
      && (r.Ok? <==> AllOk(outs))
      && (r.Ok? ==> r.value.kept == kept + KeptOf(indexes, outs))
    decreases |indexes|
  {
    var outs := Outcomes(handle, items, indexes);
    if indexes != [] {
      var k := indexes[0];
      var o := outs[0];
      if o.Ok? {
        var kept' := if o.value.keep then kept + [k] else kept;
        LaterOutcomes(handle, items, indexes, o.value.item);
        VisitKeeps(handle, items[k := o.value.item], indexes[1..], kept');
        assert AllOk(outs) <==> AllOk(outs[1..]) by {
          assert forall i :: 0 < i < |outs| ==> outs[i] == outs[1..][i - 1];
        }
      }
    }
  }

  /** A successful loop leaves each listed item as its outcome says and
      every other item untouched. */
  lemma {:induction false} VisitChanges(handle: Json -> Result<ItemOutcome>, items: seq<Json>, indexes: seq<int>, kept: seq<int>)
    requires Within(indexes, |items|) && Increasing(indexes)
    requires Visit(handle, items, indexes, kept).Ok?
    ensures var r := Visit(handle, items, indexes, kept).value;
      var outs := Outcomes(handle, items, indexes);
      && AllOk(outs)
      && (forall i :: 0 <= i < |indexes| ==> r.items[indexes[i]] == outs[i].value.item)
      && (forall k :: 0 <= k < |items| && k !in indexes ==> r.items[k] == items[k])
    decreases |indexes|
  {
    VisitKeeps(handle, items, indexes, kept);
    var outs := Outcomes(handle, items, indexes);
    if indexes != [] {
      var k := indexes[0];
      var o := outs[0];
      var kept' := if o.value.keep then kept + [k] else kept;
      var next := items[k := o.value.item];
      LaterOutcomes(handle, items, indexes, o.value.item);
      VisitChanges(handle, next, indexes[1..], kept');
      var r := Visit(handle, next, indexes[1..], kept').value;
      LaterAreGreater(indexes);
      assert k !in indexes[1..];
      forall i | 0 <= i < |indexes|
        ensures r.items[indexes[i]] == outs[i].value.item
      {
        if i > 0 {
          assert indexes[i] == indexes[1..][i - 1];
        }
      }
      forall j | 0 <= j < |items| && j !in indexes
        ensures r.items[j] == items[j]
      {
        assert j !in indexes[1..] && j != k;
      }
    }
  }

  /** The loop's error is the first failing item's. */
  lemma {:induction false} VisitFirstFailure(handle: Json -> Result<ItemOutcome>, items: seq<Json>, indexes: seq<int>, kept: seq<int>)
    requires Within(indexes, |items|) && Increasing(indexes)
    requires Visit(handle, items, indexes, kept).Err?
    ensures var outs := Outcomes(handle, items, indexes);
      exists i :: 0 <= i < |indexes| && outs[i].Err? && Visit(handle, items, indexes, kept).error == outs[i].error
        && forall j :: 0 <= j < i ==> outs[j].Ok?
    decreases |indexes|
  {
    var outs := Outcomes(handle, items, indexes);
    var k := indexes[0];
    var o := outs[0];
    if o.Err? {
      assert Visit(handle, items, indexes, kept).error == outs[0].error;
    } else {
      var next := items[k := o.value.item];
      var kept' := if o.value.keep then kept + [k] else kept;
      var later := Outcomes(handle, next, indexes[1..]);
      assert Visit(handle, items, indexes, kept) == Visit(handle, next, indexes[1..], kept');
      LaterOutcomes(handle, items, indexes, o.value.item);
      VisitFirstFailure(handle, next, indexes[1..], kept');
      var i :| 0 <= i < |indexes| - 1 && later[i].Err? && Visit(handle, next, indexes[1..], kept').error == later[i].error
        && forall j :: 0 <= j < i ==> later[j].Ok?;
      assert outs[i + 1] == later[i];
      forall j | 0 <= j < i + 1
        ensures outs[j].Ok?
      {
        if j > 0 {
          assert outs[j] == later[j - 1];
        }
      }
      assert outs[i + 1].Err? && Visit(handle, items, indexes, kept).error == outs[i + 1].error;
    }
  }

  /** The kept positions are some of the listed ones. */
  lemma {:induction false} KeptOfListed(indexes: seq<int>, outs: seq<Result<ItemOutcome>>)
    requires |outs| == |indexes| && AllOk(outs)
    ensures forall k :: k in KeptOf(indexes, outs) ==> k in indexes
    decreases |indexes|
  {
    if indexes != [] {
      assert AllOk(outs[1..]);
      KeptOfListed(indexes[1..], outs[1..]);
      var rest := KeptOf(indexes[1..], outs[1..]);
      forall k | k in rest
        ensures k in indexes
      {
        var j :| 0 <= j < |indexes| - 1 && indexes[1..][j] == k;
        assert indexes[j + 1] == k;
      }
    }
  }

  /** Everything listed after the first position lies above it. */
  lemma LaterAreGreater(indexes: seq<int>)
    requires Increasing(indexes) && indexes != []
    ensures forall k :: k in indexes[1..] ==> indexes[0] < k
  {
    forall k | k in indexes[1..]
      ensures indexes[0] < k
    {
      var j :| 0 <= j < |indexes| - 1 && indexes[1..][j] == k;
      assert indexes[j + 1] == k;
    }
  }

  /** The kept positions keep the listed order and lie in the array. */
  lemma {:induction false} KeptOfIsSubsequence(indexes: seq<int>, outs: seq<Result<ItemOutcome>>, n: int)
    requires |outs| == |indexes| && AllOk(outs) && Increasing(indexes) && Within(indexes, n)
    ensures Increasing(KeptOf(indexes, outs)) && Within(KeptOf(indexes, outs), n)
    decreases |indexes|
  {
    var r := KeptOf(indexes, outs);
    KeptOfListed(indexes, outs);
    forall i | 0 <= i < |r|
      ensures 0 <= r[i] < n
    {
      assert r[i] in r;
      var j :| 0 <= j < |indexes| && indexes[j] == r[i];
    }
    if indexes != [] {
      assert AllOk(outs[1..]);
      KeptOfIsSubsequence(indexes[1..], outs[1..], n);
      var rest := KeptOf(indexes[1..], outs[1..]);
      KeptOfListed(indexes[1..], outs[1..]);
      LaterAreGreater(indexes);
      if outs[0].value.keep {
        forall i, j | 0 <= i < j < |r|
          ensures r[i] < r[j]
        {
          assert r[j] == rest[j - 1];
          if i > 0 {
            assert r[i] == rest[i - 1];
          } else {
            assert rest[j - 1] in rest;
          }
        }
      } else {
        assert r == rest;
      }
    }
  }

  /** The items whose outcome says keep, as their outcome leaves them, in
      order. */
  function KeptItems(outs: seq<Result<ItemOutcome>>): (r: seq<Json>)
    requires AllOk(outs)
    ensures |r| <= |outs|
  {
    if outs == [] then []
    else (if outs[0].value.keep then [outs[0].value.item] else []) + KeptItems(outs[1..])
  }

  /** Reading the kept positions back out of the changed array gives the
      kept items. */
  lemma {:induction false} KeptItemsAt(items: seq<Json>, indexes: seq<int>, outs: seq<Result<ItemOutcome>>)
    requires |outs| == |indexes| && AllOk(outs) && Within(indexes, |items|)
    requires forall i :: 0 <= i < |indexes| ==> items[indexes[i]] == outs[i].value.item
    ensures Within(KeptOf(indexes, outs), |items|)
    ensures ItemsAt(items, KeptOf(indexes, outs)) == KeptItems(outs)
    decreases |indexes|
  {
    KeptOfListed(indexes, outs);
    var kept := KeptOf(indexes, outs);
    forall i | 0 <= i < |kept|
      ensures 0 <= kept[i] < |items|
    {
      assert kept[i] in kept;
      var j :| 0 <= j < |indexes| && indexes[j] == kept[i];
    }
    if indexes != [] {
      assert AllOk(outs[1..]);
      KeptItemsAt(items, indexes[1..], outs[1..]);
      var rest := KeptOf(indexes[1..], outs[1..]);
      if outs[0].value.keep {
        assert kept == [indexes[0]] + rest;
        assert ItemsAt(items, kept) == [items[indexes[0]]] + ItemsAt(items, rest);
      } else {
        assert kept == rest;
      }
    }
  }

  // ---------------------------------------------------------------------
  // The walk

  /** Where the walk stands in the root copy: on the element at a path, or
      on a fresh array (built by handleArray) holding the items of the array
      at a path whose positions are listed. */
  datatype Cursor = InTree(at: seq<Step>) | Detached(at: seq<Step>, indexes: seq<int>)

  /** The cursor points into the root. */
  predicate Fits(root: Json, c: Cursor) {
    && At(root, c.at).Some?
    && (c.Detached? ==>
          && At(root, c.at).value.Arr?
          && Within(c.indexes, |At(root, c.at).value.items|)
          && Increasing(c.indexes))
  }

  /** The element the walk stands on. */
  function CurrentOf(root: Json, c: Cursor): (r: Json)
    requires Fits(root, c)
    ensures c.Detached? ==> r.Arr? && |r.items| == |c.indexes|
  {
    match c
    case InTree(p) => At(root, p).value
    case Detached(p, indexes) => Arr(ItemsAt(At(root, p).value.items, indexes))
  }

  /** What one segment leaves: the rewritten root and the cursor on the
      segment's result, or the end of the walk with JsonNull. */
  datatype Outcome = Continue(root: Json, cursor: Cursor) | Stop

  /** The positions handleArray visits: all of an array in the document,
      or the listed ones of a fresh array. */
  function Visited(root: Json, c: Cursor): (r: seq<int>)
    requires Fits(root, c) && At(root, c.at).value.Arr?
    ensures Within(r, |At(root, c.at).value.items|) && Increasing(r)
  {
    if c.InTree? then AllIndexes(|At(root, c.at).value.items|) else c.indexes
  }

  /** An object segment: handleObject may rewrite the object in place, and
      the walk goes on to the property it yields. */
  function ObjectStep(strategy: Strategy, root: Json, c: Cursor, path: string): (r: Result<Outcome>)
    requires Fits(root, c) && CurrentOf(root, c).Obj?
    ensures r.Ok? && r.value.Continue? ==> Fits(r.value.root, r.value.cursor)
  {
    var h :- HandleObject(strategy, CurrentOf(root, c).members, path);
    if h.result.Null? then Ok(Stop)
    else
      var name := FindPropertyName(path);
      var rewritten := Update(root, c.at, Obj(h.members));
      AtUpdate(root, c.at, Obj(h.members));
      AtMember(rewritten, c.at, h.members, name);
      Ok(Continue(rewritten, InTree(c.at + [Key(name)])))
  }

  /** The array written back after handleArray: an array in the document
      is replaced by the kept items; a fresh array is not in the document,
      so only the in-place changes to its objects reach it. */
  function WrittenBack(c: Cursor, v: Kept): (r: seq<Json>)
    requires Within(v.kept, |v.items|)
    ensures c.InTree? ==> |r| == |v.kept| && forall i :: 0 <= i < |v.kept| ==> r[i] == v.items[v.kept[i]]
    ensures c.Detached? ==> r == v.items
  {
    if c.InTree? then ItemsAt(v.items, v.kept) else v.items
  }

  /** The positions a successful visit keeps are listed ones, in order. */
  lemma VisitKeepsListed(handle: Json -> Result<ItemOutcome>, items: seq<Json>, indexes: seq<int>)
    requires Within(indexes, |items|) && Increasing(indexes)
    ensures var v := Visit(handle, items, indexes, []);
      v.Ok? ==> Within(v.value.kept, |items|) && Increasing(v.value.kept)
  {
    VisitKeeps(handle, items, indexes, []);
    if Visit(handle, items, indexes, []).Ok? {
      KeptOfIsSubsequence(indexes, Outcomes(handle, items, indexes), |items|);
    }
  }

  /** What an array segment leaves once handleArray has visited the items:
      JsonNull when nothing is kept; otherwise the array is written back and
      the walk goes on over the fresh array of the kept items. */
  function ArrayOutcome(root: Json, c: Cursor, visited: Result<Kept>): (r: Result<Outcome>)
    requires Fits(root, c) && At(root, c.at).value.Arr?
    requires visited.Ok? ==> |visited.value.items| == |At(root, c.at).value.items|
    requires visited.Ok? ==> Within(visited.value.kept, |visited.value.items|) && Increasing(visited.value.kept)
    ensures r.Ok? && r.value.Continue? ==> Fits(r.value.root, r.value.cursor)
  {
    var v :- visited;
    if v.kept == [] then Ok(Stop)
    else
      var replaced := WrittenBack(c, v);
      var rewritten := Update(root, c.at, Arr(replaced));
      AtUpdate(root, c.at, Arr(replaced));
      Ok(Continue(rewritten, Detached(c.at, if c.InTree? then AllIndexes(|replaced|) else v.kept)))
  }

  /** An array segment: handleArray visits the items, then the array is
      written back. */
  function ArrayStep(strategy: Strategy, root: Json, c: Cursor, path: string): (r: Result<Outcome>)
    requires Fits(root, c) && CurrentOf(root, c).Arr?
    ensures r.Ok? && r.value.Continue? ==> Fits(r.value.root, r.value.cursor)
  {
    var items := At(root, c.at).value.items;
    VisitKeepsListed(Handler(strategy, path), items, Visited(root, c));
    ArrayOutcome(root, c, Visit(Handler(strategy, path), items, Visited(root, c), []))
  }

  /** KeepFlow.handle followed by the flow loop's write-back: JsonNull
      yields JsonNull, a primitive is an IllegalArgument error, an object
      and an array are stepped as above. */
  function Handle(strategy: Strategy, root: Json, c: Cursor, path: string): (r: Result<Outcome>)
    requires Fits(root, c)
    ensures r.Ok? && r.value.Continue? ==> Fits(r.value.root, r.value.cursor)
  {
    match CurrentOf(root, c)
    case Null => Ok(Stop)
    case Prim(_) => Err(IllegalArgument)
    case Obj(_) => ObjectStep(strategy, root, c, path)
    case Arr(_) => ArrayStep(strategy, root, c, path)
  }

  /** KeepFlow.flow as a function of the unread tokens: segments are handled
      until a blank one (or JsonNull) ends the walk with the rewritten root,
      a segment yields JsonNull, which is the result, or a segment fails. */
  function FlowFrom(strategy: Strategy, root: Json, c: Cursor, tokens: seq<Token>): (r: Result<Json>)
    requires Fits(root, c)
    ensures IsBlank(Segment(tokens)) || CurrentOf(root, c).Null? ==> r == Ok(root)
    decreases |tokens|
  {
    var path := Segment(tokens);
    if IsBlank(path) || CurrentOf(root, c).Null? then Ok(root)
    else
      NonBlankSegmentConsumes(tokens);
      var o :- Handle(strategy, root, c, path);
      match o
      case Stop => Ok(Null)
      case Continue(rewritten, next) => FlowFrom(strategy, rewritten, next, tokens[Consumed(tokens)..])
  }

  /** One segment of the walk, unfolded. */
  lemma FlowStep(strategy: Strategy, root: Json, c: Cursor, tokens: seq<Token>)
    requires Fits(root, c) && !IsBlank(Segment(tokens)) && !CurrentOf(root, c).Null?
    ensures 0 < Consumed(tokens)
    ensures var o := Handle(strategy, root, c, Segment(tokens));
      && (o.Err? ==> FlowFrom(strategy, root, c, tokens) == Err(o.error))
      && (o.Ok? && o.value.Stop? ==> FlowFrom(strategy, root, c, tokens) == Ok(Null))
      && (o.Ok? && o.value.Continue? ==>
            FlowFrom(strategy, root, c, tokens) == FlowFrom(strategy, o.value.root, o.value.cursor, tokens[Consumed(tokens)..]))
  {
    NonBlankSegmentConsumes(tokens);
  }

  /** The whole keep query over a document: the walk starts on the root of
      its copy. */
  function KeepAll(strategy: Strategy, e: Json, tokens: seq<Token>): (r: Result<Json>)
    ensures e.Null? || IsBlank(Segment(tokens)) ==> r == Ok(e)
  {
    FlowFrom(strategy, e, InTree([]), tokens)
  }

  // ---------------------------------------------------------------------
  // What a segment does

  /** A primitive cannot be walked into: the walk fails with an
      IllegalArgument error. */
  lemma PrimitiveIsIllegal(strategy: Strategy, root: Json, c: Cursor, tokens: seq<Token>)
    requires Fits(root, c) && CurrentOf(root, c).Prim? && !IsBlank(Segment(tokens))
    ensures FlowFrom(strategy, root, c, tokens) == Err(IllegalArgument)
  {
    FlowStep(strategy, root, c, tokens);
  }

  /** A segment without a criterion on an object changes nothing: the walk
      moves to the property, or ends with JsonNull when the property is
      absent or JsonNull. */
  lemma PlainSegmentOnObject(strategy: Strategy, root: Json, c: Cursor, path: string)
    requires Fits(root, c) && CurrentOf(root, c).Obj? && !IsCriterion(FindCriterion(path))
    ensures var members := CurrentOf(root, c).members;
      var name := FindPropertyName(path);
      Handle(strategy, root, c, path) ==
        if Has(members, name) && !Get(members, name).value.Null?
        then Ok(Continue(root, InTree(c.at + [Key(name)])))
        else Ok(Stop)
  {
    var members := CurrentOf(root, c).members;
    UpdateSame(root, c.at);
  }

  /** A criterion segment on an object rewrites that object in place: the
      property now holds the filtered value (the walk moves there), or the
      walk ends with JsonNull when the filter yields JsonNull; every other
      property keeps its value. */
  lemma CriterionSegmentOnObject(strategy: Strategy, root: Json, c: Cursor, path: string)
    requires Fits(root, c) && CurrentOf(root, c).Obj? && IsCriterion(FindCriterion(path))
    requires UniqueNames(CurrentOf(root, c).members)
    ensures var members := CurrentOf(root, c).members;
      var h := HandleObject(strategy, members, path);
      var r := ObjectStep(strategy, root, c, path);
      && (h.Err? ==> r == Err(h.error))
      && (h.Ok? && h.value.result.Null? ==> r == Ok(Stop))
      && (h.Ok? && !h.value.result.Null? ==>
            && r.Ok? && r.value.Continue?
            && r.value.cursor == InTree(c.at + [Key(FindPropertyName(path))])
            && At(r.value.root, c.at + [Key(FindPropertyName(path))]) == Some(h.value.result)
            && forall other :: other != FindPropertyName(path) && Has(members, other) ==>
                 At(r.value.root, c.at + [Key(other)]) == Get(members, other))
  {
    var members := CurrentOf(root, c).members;
    var h := HandleObject(strategy, members, path);
    CriterionWritesBack(strategy, members, path);
    if h.Ok? && !h.value.result.Null? {
      var rewritten := Update(root, c.at, Obj(h.value.members));
      AtUpdate(root, c.at, Obj(h.value.members));
      AtMember(rewritten, c.at, h.value.members, FindPropertyName(path));
      forall other | other != FindPropertyName(path) && Has(members, other)
        ensures At(rewritten, c.at + [Key(other)]) == Get(members, other)
      {
        AtMember(rewritten, c.at, h.value.members, other);
      }
    }
  }

  /** An array in the document is filtered in place: the segment fails
      exactly when one of its objects cannot be handled; otherwise the array
      now holds, in their order, the items that are kept (objects for which
      handleObject does not yield JsonNull, as handleObject left them, and
      every other item), and the walk ends with JsonNull when there are none. */
  lemma ArraySegmentInDocument(strategy: Strategy, root: Json, p: seq<Step>, path: string)
    requires Fits(root, InTree(p)) && CurrentOf(root, InTree(p)).Arr?
    ensures var items := CurrentOf(root, InTree(p)).items;
      var outs := Outcomes(Handler(strategy, path), items, AllIndexes(|items|));
      var r := ArrayStep(strategy, root, InTree(p), path);
      && (r.Ok? <==> AllOk(outs))
      && (r.Ok? ==> (r.value.Stop? <==> KeptItems(outs) == []))
      && (r.Ok? && r.value.Continue? ==> At(r.value.root, p) == Some(Arr(KeptItems(outs))))
  {
    var items := CurrentOf(root, InTree(p)).items;
    var indexes := AllIndexes(|items|);
    var handle := Handler(strategy, path);
    var outs := Outcomes(handle, items, indexes);
    VisitKeeps(handle, items, indexes, []);
    var v := Visit(handle, items, indexes, []);
    if v.Ok? {
      VisitChanges(handle, items, indexes, []);
      assert [] + KeptOf(indexes, outs) == KeptOf(indexes, outs);
      KeptItemsAt(v.value.items, indexes, outs);
      VisitKeepsListed(handle, items, indexes);
      AtUpdate(root, p, Arr(ItemsAt(v.value.items, v.value.kept)));
    }
  }

  /** A fresh array is filtered, but not in the document: the array it came
      from keeps all its items, those listed changed as handleObject left
      them, the others untouched. Only the walk over the kept ones goes on. */
  lemma ArraySegmentOnFreshArray(strategy: Strategy, root: Json, p: seq<Step>, indexes: seq<int>, path: string)
    requires Fits(root, Detached(p, indexes))
    ensures var items := At(root, p).value.items;
      var outs := Outcomes(Handler(strategy, path), items, indexes);
      var r := ArrayStep(strategy, root, Detached(p, indexes), path);
      && (r.Ok? <==> AllOk(outs))
      && (r.Ok? ==> (r.value.Stop? <==> KeptOf(indexes, outs) == []))
      && (r.Ok? && r.value.Continue? ==>
            && r.value.cursor == Detached(p, KeptOf(indexes, outs))
            && At(r.value.root, p).Some? && At(r.value.root, p).value.Arr?
            && |At(r.value.root, p).value.items| == |items|
            && (forall i :: 0 <= i < |indexes| ==> At(r.value.root, p).value.items[indexes[i]] == outs[i].value.item)
            && (forall k :: 0 <= k < |items| && k !in indexes ==> At(r.value.root, p).value.items[k] == items[k]))
  {
    var items := At(root, p).value.items;
    var handle := Handler(strategy, path);
    var outs := Outcomes(handle, items, indexes);
    VisitKeeps(handle, items, indexes, []);
    FreshArrayWritten(strategy, root, p, indexes, path);
    var v := Visit(handle, items, indexes, []);
    if v.Ok? {
      VisitChanges(handle, items, indexes, []);
      assert [] + KeptOf(indexes, outs) == KeptOf(indexes, outs);
    }
  }

  /** ArrayStep on a fresh array, in terms of the loop's result. */
  lemma FreshArrayWritten(strategy: Strategy, root: Json, p: seq<Step>, indexes: seq<int>, path: string)
    requires Fits(root, Detached(p, indexes))
    ensures var v := Visit(Handler(strategy, path), At(root, p).value.items, indexes, []);
      var r := ArrayStep(strategy, root, Detached(p, indexes), path);
      && (r.Ok? <==> v.Ok?)
      && (r.Ok? ==> (r.value.Stop? <==> v.value.kept == []))
      && (r.Ok? && r.value.Continue? ==>
            r.value.cursor == Detached(p, v.value.kept) && At(r.value.root, p) == Some(Arr(v.value.items)))
  {
    var v := Visit(Handler(strategy, path), At(root, p).value.items, indexes, []);
    if v.Ok? {
      VisitKeepsListed(Handler(strategy, path), At(root, p).value.items, indexes);
      AtUpdate(root, p, Arr(v.value.items));
    }
  }

  /** A segment that goes on leaves the document of its own kind: the
      element it rewrites is replaced by one of the same kind. */
  lemma HandleKeepsKind(strategy: Strategy, root: Json, c: Cursor, path: string)
    requires Fits(root, c)
    ensures var o := Handle(strategy, root, c, path);
      o.Ok? && o.value.Continue? ==> SameKind(o.value.root, root)
  {
    match CurrentOf(root, c)
    case Null =>
    case Prim(_) =>
    case Obj(_) => ObjectStepKeepsKind(strategy, root, c, path);
    case Arr(_) => ArrayStepKeepsKind(strategy, root, c, path);
  }

  lemma ObjectStepKeepsKind(strategy: Strategy, root: Json, c: Cursor, path: string)
    requires Fits(root, c) && CurrentOf(root, c).Obj?
    ensures var o := ObjectStep(strategy, root, c, path);
      o.Ok? && o.value.Continue? ==> SameKind(o.value.root, root)
  {
    var h := HandleObject(strategy, CurrentOf(root, c).members, path);
    if h.Ok? && !h.value.result.Null? {
      UpdateKeepsKind(root, c.at, Obj(h.value.members));
    }
  }

  lemma ArrayStepKeepsKind(strategy: Strategy, root: Json, c: Cursor, path: string)
    requires Fits(root, c) && CurrentOf(root, c).Arr?
    ensures var o := ArrayStep(strategy, root, c, path);
      o.Ok? && o.value.Continue? ==> SameKind(o.value.root, root)
  {
    var items := At(root, c.at).value.items;
    VisitKeepsListed(Handler(strategy, path), items, Visited(root, c));
    var v := Visit(Handler(strategy, path), items, Visited(root, c), []);
    if v.Ok? && v.value.kept != [] {
      UpdateKeepsKind(root, c.at, Arr(WrittenBack(c, v.value)));
    }
  }

  /** The walk yields JsonNull or the rewritten document, which is of the
      same kind as the document it started from. */
  lemma {:induction false} FlowKeepsKind(strategy: Strategy, root: Json, c: Cursor, tokens: seq<Token>)
    requires Fits(root, c)
    ensures var r := FlowFrom(strategy, root, c, tokens);
      r.Ok? ==> r.value.Null? || SameKind(r.value, root)
    decreases |tokens|
  {
    if !IsBlank(Segment(tokens)) && !CurrentOf(root, c).Null? {
      FlowStep(strategy, root, c, tokens);
      var o := Handle(strategy, root, c, Segment(tokens));
      if o.Ok? && o.value.Continue? {
        HandleKeepsKind(strategy, root, c, Segment(tokens));
        FlowKeepsKind(strategy, o.value.root, o.value.cursor, tokens[Consumed(tokens)..]);
      }
    }
  }

  /** A keep query of one segment whose handleObject leaves the root object
      as it was (KeepingAllChangesNothing says when a criterion does) returns
      the object as it was. */
  lemma KeepingAllIsIdentity(strategy: Strategy, members: seq<Member>, tokens: seq<Token>, v: Json)
    requires !IsBlank(Segment(tokens)) && IsBlank(Segment(tokens[Consumed(tokens)..]))
    requires HandleObject(strategy, members, Segment(tokens)) == Ok(Handled(members, v)) && !v.Null?
    ensures KeepAll(strategy, Obj(members), tokens) == Ok(Obj(members))
  {
    var path := Segment(tokens);
    var next := InTree([Key(FindPropertyName(path))]);
    var root := Obj(members);
    assert Handle(strategy, root, InTree([]), path) == Ok(Continue(root, next)) by {
      assert CurrentOf(root, InTree([])) == root;
      ObjectKeptWhole(strategy, members, path, v);
    }
    FlowStep(strategy, root, InTree([]), tokens);
    assert FlowFrom(strategy, root, next, tokens[Consumed(tokens)..]) == Ok(root);
  }

  /** An object step whose handleObject yields an element goes on from the
      rewritten object's property. */
  lemma ObjectStepGoesOn(strategy: Strategy, root: Json, c: Cursor, path: string)
    requires Fits(root, c) && CurrentOf(root, c).Obj?
    requires var h := HandleObject(strategy, CurrentOf(root, c).members, path); h.Ok? && !h.value.result.Null?
    ensures var h := HandleObject(strategy, CurrentOf(root, c).members, path).value;
      ObjectStep(strategy, root, c, path)
        == Ok(Continue(Update(root, c.at, Obj(h.members)), InTree(c.at + [Key(FindPropertyName(path))])))
  {
  }

  /** The step of a segment that keeps the root object as it was. */
  lemma ObjectKeptWhole(strategy: Strategy, members: seq<Member>, path: string, v: Json)
    requires HandleObject(strategy, members, path) == Ok(Handled(members, v)) && !v.Null?
    ensures ObjectStep(strategy, Obj(members), InTree([]), path) == Ok(Continue(Obj(members), InTree([Key(FindPropertyName(path))])))
  {
    var name := FindPropertyName(path);
    var root := Obj(members);
    assert CurrentOf(root, InTree([])) == root;
    ObjectStepGoesOn(strategy, root, InTree([]), path);
    assert Update(root, [], root) == root;
    assert [] + [Key(name)] == [Key(name)];
  }

  // ---------------------------------------------------------------------
  // The flow object

  /** KeepFlow.handleArray's loop: the listed items are visited in order;
      an object is handled in place and kept unless handleObject yields
      JsonNull, any other item is kept. The first failure ends the loop. */
  method HandleArray(strategy: Strategy, items: seq<Json>, indexes: seq<int>, path: string) returns (r: Result<Kept>)
    requires Within(indexes, |items|)
    ensures r == Visit(Handler(strategy, path), items, indexes, [])
  {
    var current := items;
    var kept: seq<int> := [];
    for i := 0 to |indexes|
      invariant |current| == |items| && Within(indexes[i..], |current|)
      invariant Visit(Handler(strategy, path), items, indexes, []) == Visit(Handler(strategy, path), current, indexes[i..], kept)
    {
      assert indexes[i..][0] == indexes[i] && indexes[i..][1..] == indexes[i + 1..];
      var k := indexes[i];
      var element := current[k];
      assert Handler(strategy, path)(element) == HandleItem(strategy, element, path);
      VisitStep(Handler(strategy, path), current, indexes[i..], kept);
      if element.Obj? {
        var handled := HandleObject(strategy, element.members, path);
        if handled.Err? {
          assert HandleItem(strategy, element, path) == Err(handled.error);
          return Err(handled.error);
        }
        assert HandleItem(strategy, element, path) == Ok(ItemOutcome(Obj(handled.value.members), !handled.value.result.Null?));
        current := current[k := Obj(handled.value.members)];
        if !handled.value.result.Null? {
          kept := kept + [k];
        }
      } else {
        assert current[k := element] == current;
        kept := kept + [k];
      }
    }
    r := Ok(Kept(current, kept));
  }

  /** KeepFlow.handle on the current element, with the flow loop's
      write-back of an array: a primitive is an IllegalArgument error, an
      object goes to handleObject and an array to handleArray. */
  method HandleCurrent(strategy: Strategy, root: Json, cursor: Cursor, path: string) returns (outcome: Result<Outcome>)
    requires Fits(root, cursor)
    ensures outcome == Handle(strategy, root, cursor, path)
  {
    var current := CurrentOf(root, cursor);
    if current.Null? {
      outcome := Ok(Stop);
    } else if current.Prim? {
      outcome := Err(IllegalArgument);
    } else if current.Obj? {
      outcome := ObjectStep(strategy, root, cursor, path);
    } else {
      var items := At(root, cursor.at).value.items;
      var visited := HandleArray(strategy, items, Visited(root, cursor), path);
      VisitKeepsListed(Handler(strategy, path), items, Visited(root, cursor));
      outcome := ArrayOutcome(root, cursor, visited);
    }
  }

  class KeepFlow {
    const query: Query
    const context: Context

    ghost predicate Valid()
      reads this, query, context
    {
      query.Valid() && context.Valid()
    }

    constructor Over(query: Query, context: Context)
      requires query.Valid() && context.Valid()
      ensures this.query == query && this.context == context && Valid()
    {
      this.query := query;
      this.context := context;
    }

    /** One round of the flow loop: the current element is handled under
      the segment just read and, when the walk goes on, the next segment is
      read. */
    method Advance(strategy: Strategy, root: Json, cursor: Cursor, path: string, ghost before: nat)
      returns (outcome: Result<Outcome>, next: string)
      requires query.Valid() && before <= query.position <= |query.tokens|
      requires path == Segment(query.tokens[before..]) && query.position == before + Consumed(query.tokens[before..])
      requires Fits(root, cursor) && !IsBlank(path) && !CurrentOf(root, cursor).Null?
      modifies query
      ensures query.Valid() && query.tokens == old(query.tokens) && old(query.position) <= |query.tokens|
      ensures outcome.Err? ==> FlowFrom(strategy, root, cursor, query.tokens[before..]) == Err(outcome.error)
      ensures outcome.Ok? && outcome.value.Stop? ==> FlowFrom(strategy, root, cursor, query.tokens[before..]) == Ok(Null)
      ensures outcome.Ok? && outcome.value.Continue? ==>
        && before < old(query.position) <= query.position
        && Fits(outcome.value.root, outcome.value.cursor)
        && next == Segment(query.tokens[old(query.position)..])
        && query.position == old(query.position) + Consumed(query.tokens[old(query.position)..])
        && FlowFrom(strategy, root, cursor, query.tokens[before..])
           == FlowFrom(strategy, outcome.value.root, outcome.value.cursor, query.tokens[old(query.position)..])
    {
      ghost var tokens, start := query.tokens, query.position;
      ghost var segment := tokens[before..];
      outcome := HandleCurrent(strategy, root, cursor, path);
      FlowStep(strategy, root, cursor, segment);
      next := path;
      if outcome.Ok? && outcome.value.Continue? {
        assert segment[Consumed(segment)..] == tokens[start..];
        assert FlowFrom(strategy, root, cursor, segment)
          == FlowFrom(strategy, outcome.value.root, outcome.value.cursor, tokens[start..]);
        next := query.NextPath();
      }
    }

    /** KeepFlow.flow: walks a copy of the document segment by segment,
      rewriting it in place, and returns the copy, or JsonNull as soon as a
      segment yields JsonNull. It moves the query's cursor and changes
      nothing else; the document handed in is a value and stays as it was. */
    method Flow(e: Json) returns (r: Result<Json>)
      requires Valid()
      modifies query
      ensures Valid() && query.tokens == old(query.tokens)
      ensures r == KeepAll(context.Current().strategy, e, old(query.tokens[query.position..]))
    {
      var strategy := context.Current().strategy;
      ghost var all := query.tokens[query.position..];
      var root := e;
      var cursor := InTree([]);
      ghost var before := query.position;
      var path := query.NextPath();
      while !IsBlank(path) && !CurrentOf(root, cursor).Null?
        invariant query.Valid() && query.tokens == old(query.tokens) && context.Current().strategy == strategy
        invariant before <= query.position <= |query.tokens|
        invariant path == Segment(query.tokens[before..])
        invariant query.position == before + Consumed(query.tokens[before..])
        invariant Fits(root, cursor)
        invariant KeepAll(strategy, e, all) == FlowFrom(strategy, root, cursor, query.tokens[before..])
        decreases |query.tokens| - before
      {
        ghost var position := query.position;
        var outcome;
        outcome, path := Advance(strategy, root, cursor, path, before);
        if outcome.Err? {
          return Err(outcome.error);
        }
        if outcome.value.Stop? {
          return Ok(Null);
        }
        root, cursor := outcome.value.root, outcome.value.cursor;
        before := position;
      }
      r := Ok(root);
    }
  }

  /** new KeepFlow(query, context): forks the query, so the flow reads the
      tokens the given query has not read yet; with none left it fails with
      EndOfQuery. The given query is unchanged. */
  method NewKeepFlow(query: Query, context: Context) returns (r: Result<KeepFlow>)
    requires query.Valid() && context.Valid()
    ensures r.Ok? ==> fresh(r.value) && fresh(r.value.query) && r.value.Valid() && r.value.context == context
    ensures r.Ok? ==> r.value.query.tokens == query.tokens[query.position..] && r.value.query.position == 0
    ensures r.Err? <==> query.position == |query.tokens|
    ensures r.Err? ==> r.error == EndOfQuery
  {
    var forked := query.Fork();
    if forked.Err? {
      r := Err(forked.error);
    } else {
      var flow := new KeepFlow.Over(forked.value, context);
      r := Ok(flow);
    }
  }
}
