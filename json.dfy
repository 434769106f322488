/** The JSON document tree the engine walks: null, a primitive (kept as its
    string form), an object with uniquely named members in insertion order,
    or an array. */
module JsonValues {
  import opened Results

  datatype Json = Null | Prim(text: string) | Obj(members: seq<Member>) | Arr(items: seq<Json>)

  datatype Member = Member(name: string, value: Json)

  /** No two members share a name. */
  predicate UniqueNames(members: seq<Member>) {
    forall i, j :: 0 <= i < j < |members| ==> members[i].name != members[j].name
  }

  function Names(members: seq<Member>): (r: seq<string>)
    ensures |r| == |members|
    ensures forall i :: 0 <= i < |members| ==> r[i] == members[i].name
  {
    if members == [] then [] else [members[0].name] + Names(members[1..])
  }

  /** The value of the first member with that name, if any. */
  function Get(members: seq<Member>, name: string): (r: Option<Json>)
    ensures r.Some? <==> exists i :: 0 <= i < |members| && members[i].name == name
    ensures r.Some? ==> exists i :: 0 <= i < |members| && members[i] == Member(name, r.value)
  {
    if members == [] then None
    else if members[0].name == name then
      assert members[0] == Member(name, members[0].value);
      Some(members[0].value)
    else
      var r := Get(members[1..], name);
      assert forall i :: 0 < i < |members| ==> members[i] == members[1..][i - 1];
      r
  }

  predicate Has(members: seq<Member>, name: string) {
    Get(members, name).Some?
  }

  /** JsonObject.add: a member with that name gets the new value in its own
      place; otherwise the member is appended. */
  function Put(members: seq<Member>, name: string, value: Json): (r: seq<Member>)
    ensures Has(members, name) ==> |r| == |members|
    ensures !Has(members, name) ==> r == members + [Member(name, value)]
  {
    if members == [] then [Member(name, value)]
    else if members[0].name == name then [Member(name, value)] + members[1..]
    else [members[0]] + Put(members[1..], name, value)
  }

  /** JsonObject.remove: the member with that name is dropped. */
  function Remove(members: seq<Member>, name: string): (r: seq<Member>)
    ensures |r| <= |members|
    ensures !Has(members, name) ==> r == members
  {
    if members == [] then []
    else if members[0].name == name then Remove(members[1..], name)
    else [members[0]] + Remove(members[1..], name)
  }

  /** After a put, the name has the new value and every other name keeps its
      value. */
  lemma GetPut(members: seq<Member>, name: string, value: Json, other: string)
    ensures Get(Put(members, name, value), name) == Some(value)
    ensures other != name ==> Get(Put(members, name, value), other) == Get(members, other)
  {
    PutGetsValue(members, name, value);
    if other != name {
      PutKeepsOthers(members, name, value, other);
    }
  }

  lemma {:induction false} PutGetsValue(members: seq<Member>, name: string, value: Json)
    ensures Get(Put(members, name, value), name) == Some(value)
  {
    var r := Put(members, name, value);
    if members == [] {
      assert r == [Member(name, value)];
    } else if members[0].name == name {
      assert r[0] == Member(name, value);
    } else {
      assert r[0] == members[0] && r[1..] == Put(members[1..], name, value);
      PutGetsValue(members[1..], name, value);
    }
  }

  lemma {:induction false} PutKeepsOthers(members: seq<Member>, name: string, value: Json, other: string)
    requires other != name
    ensures Get(Put(members, name, value), other) == Get(members, other)
  {
    var r := Put(members, name, value);
    if members == [] {
      assert r == [Member(name, value)];
    } else if members[0].name == name {
      assert r[0] == Member(name, value) && r[1..] == members[1..];
    } else {
      assert r[0] == members[0] && r[1..] == Put(members[1..], name, value);
      PutKeepsOthers(members[1..], name, value, other);
    }
  }

  /** After a remove, the name is absent and every other name keeps its value
      (for a unique-named object). */
  lemma {:induction false} GetRemove(members: seq<Member>, name: string, other: string)
    requires UniqueNames(members)
    ensures !Has(Remove(members, name), name)
    ensures other != name ==> Get(Remove(members, name), other) == Get(members, other)
  {
    if members != [] {
      Tail(members);
      GetRemove(members[1..], name, other);
    }
  }

  lemma Tail(members: seq<Member>)
    requires members != [] && UniqueNames(members)
    ensures UniqueNames(members[1..])
  {
  }

  /** A put keeps the member names and their order: the names are the
      same, or the new name is appended. */
  lemma {:induction false} PutKeepsNames(members: seq<Member>, name: string, value: Json)
    ensures Names(Put(members, name, value)) ==
      if Has(members, name) then Names(members) else Names(members) + [name]
  {
    if members != [] && members[0].name != name {
      PutKeepsNames(members[1..], name, value);
      assert Has(members, name) == Has(members[1..], name);
      assert Names(members) == [members[0].name] + Names(members[1..]);
    }
  }

  /** Hence a put keeps the names unique. */
  lemma PutKeepsUnique(members: seq<Member>, name: string, value: Json)
    requires UniqueNames(members)
    ensures UniqueNames(Put(members, name, value))
  {
    var r := Put(members, name, value);
    if !Has(members, name) {
      assert forall i :: 0 <= i < |members| ==> members[i].name != name;
      assert forall i :: 0 <= i < |members| ==> r[i] == members[i];
    } else {
      PutKeepsNames(members, name, value);
      forall i | 0 <= i < |r|
        ensures r[i].name == members[i].name
      {
        assert r[i].name == Names(r)[i];
      }
    }
  }

  /** A remove keeps only members that were there, so the names stay unique. */
  lemma {:induction false} RemoveKeepsUnique(members: seq<Member>, name: string)
    requires UniqueNames(members)
    ensures UniqueNames(Remove(members, name))
    ensures forall m :: m in Remove(members, name) ==> m in members && m.name != name
  {
    if members != [] {
      Tail(members);
      RemoveKeepsUnique(members[1..], name);
      var r := Remove(members, name);
      if members[0].name != name {
        assert r[1..] == Remove(members[1..], name);
        forall k | 1 <= k < |r|
          ensures r[k].name != members[0].name
        {
          assert r[k] in r[1..];
          var i :| 0 <= i < |members[1..]| && members[1..][i] == r[k];
          assert members[i + 1] == r[k];
        }
      }
    }
  }

  /** A step into a document: a member by name or an array item by position. */
  datatype Step = Key(name: string) | Index(index: nat)

  /** The element a path leads to, if the path exists. */
  function At(j: Json, path: seq<Step>): Option<Json>
    decreases path
  {
    if path == [] then Some(j)
    else match path[0]
      case Key(name) =>
        (if j.Obj? && Has(j.members, name) then At(Get(j.members, name).value, path[1..]) else None)
      case Index(i) =>
        (if j.Arr? && i < |j.items| then At(j.items[i], path[1..]) else None)
  }

  /** The document with the element at the path replaced; unchanged when the
      path does not exist. */
  function Update(j: Json, path: seq<Step>, v: Json): Json
    decreases path
  {
    if path == [] then v
    else match path[0]
      case Key(name) =>
        (if j.Obj? && Has(j.members, name)
         then Obj(Put(j.members, name, Update(Get(j.members, name).value, path[1..], v)))
         else j)
      case Index(i) =>
        (if j.Arr? && i < |j.items| then Arr(j.items[i := Update(j.items[i], path[1..], v)]) else j)
  }

  /** Two elements of the same kind: both JsonNull, both primitives, both
      objects or both arrays. */
  predicate SameKind(a: Json, b: Json) {
    a.Null? == b.Null? && a.Prim? == b.Prim? && a.Obj? == b.Obj? && a.Arr? == b.Arr?
  }

  /** Replacing an element by one of its own kind leaves the document of its
      own kind. */
  lemma UpdateKeepsKind(j: Json, path: seq<Step>, v: Json)
    requires At(j, path).Some? && SameKind(At(j, path).value, v)
    ensures SameKind(Update(j, path, v), j)
  {
  }

  /** An update is seen at its own path. */
  lemma {:induction false} AtUpdate(j: Json, path: seq<Step>, v: Json)
    requires At(j, path).Some?
    ensures At(Update(j, path, v), path) == Some(v)
    decreases path
  {
    if path != [] {
      match path[0]
      case Key(name) =>
        var child := Get(j.members, name).value;
        AtUpdate(child, path[1..], v);
        GetPut(j.members, name, Update(child, path[1..], v), name);
      case Index(i) =>
        AtUpdate(j.items[i], path[1..], v);
    }
  }

  /** A path that exists keeps existing after an update below it or beside
      it: only the element at the updated path changes shape. */
  lemma {:induction false} UpdateKeepsPrefix(j: Json, p: seq<Step>, q: seq<Step>, v: Json)
    requires At(j, p + q).Some?
    ensures At(Update(j, p + q, v), p).Some?
    decreases p
  {
    if p != [] {
      assert (p + q)[0] == p[0] && (p + q)[1..] == p[1..] + q;
      match p[0]
      case Key(name) =>
        var child := Get(j.members, name).value;
        UpdateKeepsPrefix(child, p[1..], q, v);
        GetPut(j.members, name, Update(child, p[1..] + q, v), name);
      case Index(i) =>
        UpdateKeepsPrefix(j.items[i], p[1..], q, v);
    }
  }

  /** Putting back the value a name already has changes nothing. */
  lemma {:induction false} PutSame(members: seq<Member>, name: string)
    requires Has(members, name)
    ensures Put(members, name, Get(members, name).value) == members
  {
    if members[0].name != name {
      PutSame(members[1..], name);
      assert members == [members[0]] + members[1..];
    }
  }

  /** Writing the element a path already leads to changes nothing. */
  lemma {:induction false} UpdateSame(j: Json, path: seq<Step>)
    requires At(j, path).Some?
    ensures Update(j, path, At(j, path).value) == j
    decreases path
  {
    if path != [] {
      match path[0]
      case Key(name) =>
        var child := Get(j.members, name).value;
        UpdateSame(child, path[1..]);
        PutSame(j.members, name);
      case Index(i) =>
        UpdateSame(j.items[i], path[1..]);
        assert j.items[i := j.items[i]] == j.items;
    }
  }

  /** Following a path and then more steps is following the joined path. */
  lemma {:induction false} AtAppend(j: Json, p: seq<Step>, q: seq<Step>)
    ensures At(j, p + q) == if At(j, p).Some? then At(At(j, p).value, q) else None
    decreases p
  {
    if p != [] {
      assert (p + q)[0] == p[0] && (p + q)[1..] == p[1..] + q;
      match p[0]
      case Key(name) =>
        if j.Obj? && Has(j.members, name) {
          AtAppend(Get(j.members, name).value, p[1..], q);
        }
      case Index(i) =>
        if j.Arr? && i < |j.items| {
          AtAppend(j.items[i], p[1..], q);
        }
    } else {
      assert p + q == q;
    }
  }

  /** One more step by name from an object reaches its member. */
  lemma AtMember(j: Json, p: seq<Step>, members: seq<Member>, name: string)
    requires At(j, p) == Some(Obj(members)) && Has(members, name)
    ensures At(j, p + [Key(name)]) == Get(members, name)
  {
    AtAppend(j, p, [Key(name)]);
    assert [Key(name)][1..] == [];
  }
}
