// FetchFlow: a read-only walk down a query, one dot-separated segment at a
// time. A function segment goes to the function dispatcher, any other
// segment is resolved against the current element. Resolving a segment
// builds fresh arrays and never changes the document.

module Fetch {
  import opened Results
  import opened Strings
  import opened Tokens
  import opened JsonValues
  import opened Paths
  import Slices
  import JsonUtils
  import opened JsonCriteria
  import opened Settings
  import opened FunctionFlows
  import opened Queries

  /** FetchFlow.getPropertyByPath. Unlike the JsonUtils version, an absent
      property is a Java null (None here): returned as it is for a plain
      segment, and dereferenced (NullPointer) by an index or a slice. */
  function PropertyByPath(members: seq<Member>, path: string): (r: Result<Option<Json>>)
    ensures var index := FindIndex(FindRawIndex(path));
      index.Ok? && index.value != NotFound && Get(members, FindPropertyName(path)).None? ==> r == Err(NullPointer)
  {
    var name := FindPropertyName(path);
    var element := Get(members, name);
    var rawIndex := FindRawIndex(path);
    var index :- FindIndex(rawIndex);
    if index != NotFound then
      if element.None? then Err(NullPointer)
      else if !element.value.Arr? then Err(IllegalJsonElement)
      else if 0 <= index < |element.value.items| then Ok(Some(element.value.items[index]))
      else Err(IndexOutOfBounds)
    else if IsSlice(rawIndex) then
      if element.None? then Err(NullPointer)
      else if !element.value.Arr? then Err(IllegalState)
      else
        var slice :- Slices.SliceFrom(rawIndex);
        var selected :- JsonUtils.SelectSlice(element.value.items, slice);
        Ok(Some(selected))
    else Ok(element)
  }

  /** Where the property is present the two getPropertyByPath agree; where
      it is absent, FetchFlow's version gives a Java null or a NullPointer
      error where the JsonUtils version reads JsonNull. */
  lemma PropertyByPathAgrees(members: seq<Member>, path: string)
    ensures Has(members, FindPropertyName(path)) ==>
      PropertyByPath(members, path) == (match JsonUtils.PropertyByPath(members, path)
        case Ok(j) => Ok(Some(j))
        case Err(e) => Err(e))
    ensures !Has(members, FindPropertyName(path)) && JsonUtils.PropertyByPath(members, path) == Ok(Null) ==>
      PropertyByPath(members, path) == Ok(None)
    ensures !Has(members, FindPropertyName(path)) && PropertyByPath(members, path).Ok? ==>
      PropertyByPath(members, path) == Ok(None) && JsonUtils.PropertyByPath(members, path) == Ok(Null)
  {
    var index := FindIndex(FindRawIndex(path));
    if index.Ok? && index.value == NotFound && !IsSlice(FindRawIndex(path)) {
      assert JsonUtils.PropertyByPath(members, path) == Ok(if Has(members, FindPropertyName(path)) then Get(members, FindPropertyName(path)).value else Null);
    }
  }

  /** `name[n]` on a present array is its n-th item, or IndexOutOfBounds
      outside it (`people[10]` on two people); on a present non-array it is
      IllegalJsonElement, and on an absent property a NullPointer. */
  lemma IndexedSegment(members: seq<Member>, name: string, n: int)
    requires name != [] && '[' !in name && ']' !in name && '(' !in name && ')' !in name
    requires IsInt32(n) && n != NotFound
    ensures var r := PropertyByPath(members, name + "[" + IntToString(n) + "]");
      match Get(members, name)
      case None => r == Err(NullPointer)
      case Some(element) =>
        if !element.Arr? then r == Err(IllegalJsonElement)
        else if 0 <= n < |element.items| then r == Ok(Some(element.items[n]))
        else r == Err(IndexOutOfBounds)
  {
    var index := IntToString(n);
    NoColonInNumber(n);
    Paths.IndexedSegment(name, index);
    assert FindIndex(FindRawIndex(name + "[" + index + "]")) == Ok(n) by {
      IndexRoundTrip(n);
    }
    IndexedLookup(members, name + "[" + index + "]", n);
  }

  /** A segment whose index reads as `n` looks up item `n` of its property. */
  lemma IndexedLookup(members: seq<Member>, path: string, n: int)
    requires FindIndex(FindRawIndex(path)) == Ok(n) && n != NotFound
    ensures var r := PropertyByPath(members, path);
      match Get(members, FindPropertyName(path))
      case None => r == Err(NullPointer)
      case Some(element) =>
        if !element.Arr? then r == Err(IllegalJsonElement)
        else if 0 <= n < |element.items| then r == Ok(Some(element.items[n]))
        else r == Err(IndexOutOfBounds)
  {
  }

  /** `name[a:b:c]` on a present array selects the slice's items, on a
      present non-array is IllegalState, and on an absent property a
      NullPointer. */
  lemma SlicedSegment(members: seq<Member>, name: string, rawIndex: string)
    requires name != [] && '[' !in name && ']' !in name && '(' !in name && ')' !in name
    requires rawIndex != [] && '[' !in rawIndex && ']' !in rawIndex && ')' !in rawIndex
    requires IsSlice(rawIndex)
    ensures var r := PropertyByPath(members, name + "[" + rawIndex + "]");
      match Get(members, name)
      case None => r == Err(NullPointer)
      case Some(element) =>
        if !element.Arr? then r == Err(IllegalState)
        else match Slices.SliceFrom(rawIndex)
          case Err(e) => r == Err(e)
          case Ok(slice) => match JsonUtils.SelectSlice(element.items, slice)
            case Err(e) => r == Err(e)
            case Ok(selected) => r == Ok(Some(selected))
  {
    Paths.IndexedSegment(name, rawIndex);
    SlicedLookup(members, name + "[" + rawIndex + "]");
  }

  /** A segment whose index is a slice selects the slice of its property. */
  lemma SlicedLookup(members: seq<Member>, path: string)
    requires IsSlice(FindRawIndex(path))
    ensures var r := PropertyByPath(members, path);
      match Get(members, FindPropertyName(path))
      case None => r == Err(NullPointer)
      case Some(element) =>
        if !element.Arr? then r == Err(IllegalState)
        else match Slices.SliceFrom(FindRawIndex(path))
          case Err(e) => r == Err(e)
          case Ok(slice) => match JsonUtils.SelectSlice(element.items, slice)
            case Err(e) => r == Err(e)
            case Ok(selected) => r == Ok(Some(selected))
  {
  }

  /** FetchFlow.fetchObject: the property the segment names; with a
      criterion, that value filtered under the context's strategy (a missing
      value or no survivors give JsonNull). */
  function FetchObject(strategy: Strategy, members: seq<Member>, path: string): (r: Result<Option<Json>>)
    ensures IsCriterion(FindCriterion(path)) && r.Ok? ==> r.value.Some?
    ensures !IsCriterion(FindCriterion(path)) ==> r == PropertyByPath(members, path)
    ensures IsCriterion(FindCriterion(path)) && PropertyByPath(members, path) == Ok(None) ==> r == Ok(Some(Null))
  {
    var element :- PropertyByPath(members, path);
    var criterion := FindCriterion(path);
    if IsCriterion(criterion) then
      var filtered :- FilterFlow(strategy, criterion, element);
      Ok(Some(filtered))
    else Ok(element)
  }

  /** JsonArray.add: a Java null is stored as JsonNull. */
  function OrNull(e: Option<Json>): Json {
    if e.None? then Null else e.value
  }

  /** What one object item contributes: its property `name`, with a Java
      null stored as JsonNull (JsonArray.add). */
  function FetchedFrom(strategy: Strategy, o: Json, name: string): (r: Result<Json>)
    requires o.Obj?
    ensures r.Ok? <==> FetchObject(strategy, o.members, name).Ok?
    ensures r.Ok? ==> r.value == OrNull(FetchObject(strategy, o.members, name).value)
  {
    var fetched :- FetchObject(strategy, o.members, name);
    Ok(OrNull(fetched))
  }

  /** The values of a stream of results, in order, or its first failure. */
  function Sequenced(rs: seq<Result<Json>>): (r: Result<seq<Json>>)
    ensures r.Ok? <==> forall k :: 0 <= k < |rs| ==> rs[k].Ok?
    ensures r.Ok? ==> |r.value| == |rs|
    ensures r.Ok? ==> forall k :: 0 <= k < |rs| ==> Ok(r.value[k]) == rs[k]
  {
    if rs == [] then Ok([])
    else
      var first :- rs[0];
      var rest :- Sequenced(rs[1..]);
      assert forall k :: 1 <= k < |rs| ==> rs[k] == rs[1..][k - 1];
      Ok([first] + rest)
  }

  /** The property `name` fetched from every object, in order; the first
      failure stops the stream. */
  function Collected(strategy: Strategy, objects: seq<Json>, name: string): (r: Result<seq<Json>>)
    requires forall k :: 0 <= k < |objects| ==> objects[k].Obj?
    ensures r.Ok? <==> forall k :: 0 <= k < |objects| ==> FetchedFrom(strategy, objects[k], name).Ok?
    ensures r.Ok? ==> |r.value| == |objects|
    ensures r.Ok? ==> forall k :: 0 <= k < |objects| ==> Ok(r.value[k]) == FetchedFrom(strategy, objects[k], name)
  {
    var fetched := seq(|objects|, k requires 0 <= k < |objects| => FetchedFrom(strategy, objects[k], name));
    assert forall k :: 0 <= k < |objects| ==> fetched[k] == FetchedFrom(strategy, objects[k], name);
    Sequenced(fetched)
  }

  /** FetchFlow.fetchArray: the bare property name fetched from every
      object item (other items are dropped), then, with a criterion, the
      collected array filtered under the context's strategy. */
  function FetchArray(strategy: Strategy, items: seq<Json>, path: string): (r: Result<Json>)
    ensures var collected := Collected(strategy, Objects(items), FindPropertyName(path));
      && (collected.Err? ==> r == Err(collected.error))
      && (collected.Ok? && !IsCriterion(FindCriterion(path)) ==> r == Ok(Arr(collected.value)))
      && (collected.Ok? && IsCriterion(FindCriterion(path)) ==>
            r == ArrayFilter(strategy, Arr(collected.value), FindCriterion(path)))
    ensures r.Ok? ==> r.value.Arr? || r.value.Null?
  {
    var name := FindPropertyName(path);
    var criterion := FindCriterion(path);
    var collected :- Collected(strategy, Objects(items), name);
    if IsCriterion(criterion) then FilterFlow(strategy, criterion, Some(Arr(collected)))
    else Ok(Arr(collected))
  }

  /** With a criterion that nothing collected meets, an array fetch gives
      JsonNull. */
  lemma NoSurvivorsGiveNull(strategy: Strategy, items: seq<Json>, path: string)
    requires IsCriterion(FindCriterion(path))
    requires var collected := Collected(strategy, Objects(items), FindPropertyName(path));
      collected.Ok? && Survivors(strategy, Arr(collected.value), FindCriterion(path)) == Ok([])
    ensures FetchArray(strategy, items, path) == Ok(Null)
  {
  }

  /** Items that are not objects contribute nothing to an array fetch. */
  lemma NonObjectsDropped(strategy: Strategy, items: seq<Json>, others: seq<Json>, path: string)
    requires forall k :: 0 <= k < |others| ==> !others[k].Obj?
    ensures FetchArray(strategy, items + others, path) == FetchArray(strategy, items, path)
    ensures FetchArray(strategy, others + items, path) == FetchArray(strategy, items, path)
  {
    ObjectsAppend(items, others);
    ObjectsAppend(others, items);
    NoObjects(others);
    assert Objects(items) + [] == Objects(items);
    assert [] + Objects(items) == Objects(items);
  }

  lemma {:induction false} NoObjects(xs: seq<Json>)
    requires forall k :: 0 <= k < |xs| ==> !xs[k].Obj?
    ensures Objects(xs) == []
  {
    if xs != [] {
      NoObjects(xs[1..]);
    }
  }

  /** FetchFlow.fetch: an array and an object are fetched from, JsonNull
      stays JsonNull, a primitive is NotImplemented and a Java null is
      dereferenced. */
  function Resolve(strategy: Strategy, e: Option<Json>, path: string): (r: Result<Option<Json>>)
    ensures e.None? ==> r == Err(NullPointer)
    ensures e == Some(Null) ==> r == Ok(Some(Null))
    ensures e.Some? && e.value.Prim? ==> r == Err(NotImplemented)
    ensures e.Some? && e.value.Arr? ==> r.Ok? ==> r.value.Some? && (r.value.value.Arr? || r.value.value.Null?)
  {
    match e
    case None => Err(NullPointer)
    case Some(j) =>
      match j
      case Arr(items) =>
        var fetched :- FetchArray(strategy, items, path);
        Ok(Some(fetched))
      case Obj(members) => FetchObject(strategy, members, path)
      case Null => Ok(Some(Null))
      case Prim(_) => Err(NotImplemented)
  }

  /** One turn of the flow loop: a function segment goes to the function
      dispatcher with the context's numeric settings, any other segment is
      resolved against the current element. */
  function Advance(settings: Snapshot, sentinels: Sentinels, e: Option<Json>, path: string): (r: Result<Option<Json>>)
    ensures IsFunction(path) ==> r == (match Dispatch(e, path, settings.numbers, sentinels)
      case Ok(j) => Ok(Some(j))
      case Err(x) => Err(x))
    ensures !IsFunction(path) ==> r == Resolve(settings.strategy, e, path)
  {
    if IsFunction(path) then
      var j :- Dispatch(e, path, settings.numbers, sentinels);
      Ok(Some(j))
    else Resolve(settings.strategy, e, path)
  }

  /** FetchFlow.flow as a function of the unread tokens: the segments are
      taken left to right and each one replaces the current element, until
      a blank segment (or the end) stops the walk or a segment fails. */
  function FetchAll(settings: Snapshot, sentinels: Sentinels, tokens: seq<Token>, e: Option<Json>): (r: Result<Option<Json>>)
    ensures tokens == [] || IsBlank(Segment(tokens)) ==> r == Ok(e)
    decreases |tokens|
  {
    var path := Segment(tokens);
    if IsBlank(path) then Ok(e)
    else
      NonBlankSegmentConsumes(tokens);
      var next :- Advance(settings, sentinels, e, path);
      FetchAll(settings, sentinels, tokens[Consumed(tokens)..], next)
  }

  /** One step of the walk: a non-blank segment that resolves moves the
      walk on to the rest of the tokens. */
  lemma FetchStep(settings: Snapshot, sentinels: Sentinels, tokens: seq<Token>, e: Option<Json>, next: Option<Json>)
    requires !IsBlank(Segment(tokens))
    requires Advance(settings, sentinels, e, Segment(tokens)) == Ok(next)
    ensures 0 < Consumed(tokens) <= |tokens|
    ensures FetchAll(settings, sentinels, tokens, e) == FetchAll(settings, sentinels, tokens[Consumed(tokens)..], next)
  {
    NonBlankSegmentConsumes(tokens);
  }

  /** The walk ends on a blank segment with the element it reached. */
  lemma FetchEnd(settings: Snapshot, sentinels: Sentinels, tokens: seq<Token>, e: Option<Json>)
    requires IsBlank(Segment(tokens))
    ensures FetchAll(settings, sentinels, tokens, e) == Ok(e)
  {
  }

  /** The query's segments taken one at a time, none of them a function
      call, up to the first blank one. */
  ghost predicate PlainSegments(tokens: seq<Token>)
    decreases |tokens|
  {
    var path := Segment(tokens);
    IsBlank(path) || (
      NonBlankSegmentConsumes(tokens);
      !IsFunction(path) && PlainSegments(tokens[Consumed(tokens)..]))
  }

  /** Once the walk reaches JsonNull it stays there, whatever plain segments
      follow. */
  lemma {:induction false} NullStaysNull(settings: Snapshot, sentinels: Sentinels, tokens: seq<Token>)
    requires PlainSegments(tokens)
    ensures FetchAll(settings, sentinels, tokens, Some(Null)) == Ok(Some(Null))
    decreases |tokens|
  {
    if !IsBlank(Segment(tokens)) {
      NonBlankSegmentConsumes(tokens);
      NullStaysNull(settings, sentinels, tokens[Consumed(tokens)..]);
    }
  }

  /** A walk that meets a primitive before its last plain segment fails
      with NotImplemented. */
  lemma PrimitiveStops(settings: Snapshot, sentinels: Sentinels, tokens: seq<Token>, text: string)
    requires !IsBlank(Segment(tokens)) && !IsFunction(Segment(tokens))
    ensures FetchAll(settings, sentinels, tokens, Some(Prim(text))) == Err(NotImplemented)
  {
  }

  /** The tokens of "people.address": two plain segments. */
  lemma TwoSegments(people: Token, dot: Token, address: Token)
    requires people.kind != DotSymbol && address.kind != DotSymbol && dot.kind == DotSymbol
    ensures var ts := [people, dot, address];
      && Segment(ts) == people.text && Consumed(ts) == 2
      && Segment(ts[2..]) == address.text && Consumed(ts[2..]) == 1
      && Segment(ts[3..]) == [] && Consumed(ts[3..]) == 0
  {
    var ts := [people, dot, address];
    assert ts == [people] + ts[1..];
    SegmentOfDotFree([people], ts[1..]);
    assert ts[2..] == [address] + [];
    SegmentOfDotFree([address], []);
    assert ts[3..] == [] + [];
    SegmentOfDotFree([], []);
  }

  /** `people.address` walks two objects down: the flow returns the
      address of the people object. */
  lemma NestedFetch(settings: Snapshot, sentinels: Sentinels, people: string, address: string, x: Json)
    requires people == "people" && address == "address"
    ensures var ts := [Token(Variable, people), Token(DotSymbol, "."), Token(Variable, address)];
      var root := Obj([Member(people, Obj([Member(address, x)]))]);
      FetchAll(settings, sentinels, ts, Some(root)) == Ok(Some(x))
  {
    var ts := [Token(Variable, people), Token(DotSymbol, "."), Token(Variable, address)];
    var inner := Obj([Member(address, x)]);
    TwoSegments(ts[0], ts[1], ts[2]);
    PlainStep(settings, sentinels, people, inner);
    PlainStep(settings, sentinels, address, x);
    assert FetchAll(settings, sentinels, ts[3..], Some(x)) == Ok(Some(x));
    assert FetchAll(settings, sentinels, ts[2..], Some(inner)) == Ok(Some(x));
  }

  /** A plain name segment on an object holding that one member yields the
      member's value. */
  lemma PlainStep(settings: Snapshot, sentinels: Sentinels, name: string, v: Json)
    requires name == "people" || name == "address"
    ensures !IsBlank(name)
    ensures Advance(settings, sentinels, Some(Obj([Member(name, v)])), name) == Ok(Some(v))
  {
    PlainName(name);
    BareStep(settings, sentinels, name, v);
  }

  /** A segment that is a bare name reads that property. */
  lemma BareStep(settings: Snapshot, sentinels: Sentinels, name: string, v: Json)
    requires !IsBlank(name) && !IsFunction(name)
    requires FindPropertyName(name) == name && FindRawIndex(name) == [] && FindCriterion(name) == []
    ensures Advance(settings, sentinels, Some(Obj([Member(name, v)])), name) == Ok(Some(v))
  {
    var ms := [Member(name, v)];
    assert PropertyByPath(ms, name) == Ok(Some(v)) by {
      BareLookup(ms, name, v);
    }
    assert !IsCriterion(FindCriterion(name)) by { EmptyIsNoCriterion(); }
    assert FetchObject(settings.strategy, ms, name) == Ok(Some(v));
  }

  /** Without an index, the lookup of a one-member object by its name is
      that member's value. */
  lemma BareLookup(ms: seq<Member>, name: string, v: Json)
    requires ms == [Member(name, v)]
    requires FindPropertyName(name) == name && FindRawIndex(name) == []
    ensures PropertyByPath(ms, name) == Ok(Some(v))
  {
    assert Get(ms, name) == Some(v);
    assert FindIndex([]) == Ok(NotFound);
    assert !IsSlice([]);
  }

  /** A bare lower-case name is no function, has no index or criterion and
      names itself. */
  lemma PlainName(name: string)
    requires name == "people" || name == "address"
    ensures !IsBlank(name) && !IsFunction(name)
    ensures FindPropertyName(name) == name && FindRawIndex(name) == [] && FindCriterion(name) == []
  {
    BareName(name);
  }

  /** FetchFlow: the forked query it reads and the context it runs under. */
  class FetchFlow {
    const query: Query
    const context: Context

    ghost predicate Valid()
      reads this, query, context
    {
      query.Valid() && context.Valid()
    }

    constructor Over(query: Query, context: Context)
      requires query.Valid() && context.Valid()
      ensures this.query == query && this.context == context && Valid()
    {
      this.query := query;
      this.context := context;
    }

    /** FetchFlow.flow: reads the segments of its query one by one and
      replaces the current element by each segment's result. It moves the
      query's cursor and changes nothing else. */
    method Flow(e: Option<Json>, sentinels: Sentinels) returns (r: Result<Option<Json>>)
      requires Valid()
      modifies query
      ensures Valid() && query.tokens == old(query.tokens)
      ensures r == FetchAll(context.Current(), sentinels, old(query.tokens[query.position..]), e)
    {
      ghost var settings := context.Current();
      ghost var all := query.tokens[query.position..];
      var current := e;
      ghost var before := query.position;
      var path := query.NextPath();
      while !IsBlank(path)
        invariant query.Valid() && query.tokens == old(query.tokens) && context.Current() == settings
        invariant before <= query.position <= |query.tokens|
        invariant path == Segment(query.tokens[before..])
        invariant query.position == before + Consumed(query.tokens[before..])
        invariant FetchAll(settings, sentinels, all, e) == FetchAll(settings, sentinels, query.tokens[before..], current)
        decreases |query.tokens| - before
      {
        ghost var segment := query.tokens[before..];
        NonBlankSegmentConsumes(segment);
        var next: Result<Option<Json>>;
        if IsFunction(path) {
          var j := Dispatch(current, path, context.Current().numbers, sentinels);
          next := if j.Ok? then Ok(Some(j.value)) else Err(j.error);
        } else {
          next := Resolve(context.Current().strategy, current, path);
        }
        assert next == Advance(settings, sentinels, current, path);
        if next.Err? {
          return Err(next.error);
        }
        assert segment[Consumed(segment)..] == query.tokens[query.position..];
        current := next.value;
        before := query.position;
        path := query.NextPath();
      }
      r := Ok(current);
    }
  }

  /** new FetchFlow(query, context): forks the query, so the flow reads the
      tokens the given query has not read yet; with none left it fails with
      EndOfQuery. The given query is unchanged. */
  method NewFetchFlow(query: Query, context: Context) returns (r: Result<FetchFlow>)
    requires query.Valid() && context.Valid()
    ensures r.Ok? ==> fresh(r.value) && fresh(r.value.query) && r.value.Valid() && r.value.context == context
    ensures r.Ok? ==> r.value.query.tokens == query.tokens[query.position..] && r.value.query.position == 0
    ensures r.Err? <==> query.position == |query.tokens|
    ensures r.Err? ==> r.error == EndOfQuery
  {
    var forked := query.Fork();
    if forked.Err? {
      r := Err(forked.error);
    } else {
      var flow := new FetchFlow.Over(forked.value, context);
      r := Ok(flow);
    }
  }
}
