/** An array slice `start:end:step`: the items of the raw index (numbers
    and colons) are read left to right; a number before the first colon is
    the start, one after it (and before a second colon) the end, and one
    after the second colon the step. Each is set at most once; -1 marks one
    that was never given. */
module Slices {
  import opened Results
  import opened Strings
  import opened Tokens
  import opened Lexer

  const NotFound: int := -1

  /** The three bounds as read, -1 where absent. */
  datatype Slice = Slice(startIndex: int, endIndex: int, step: int) {
    /** The first index taken: 0 when no start was given. */
    function StartIndex(): (r: int)
      ensures startIndex == NotFound ==> r == 0
      ensures startIndex != NotFound ==> r == startIndex
    {
      if startIndex == NotFound then 0 else startIndex
    }

    /** The index to stop before: the array size when no end was given or
      the end lies beyond the array. */
    function EndIndexWithin(size: int): (r: int)
      ensures size >= 0 ==> 0 <= r <= size
      ensures 0 <= endIndex <= size ==> r == endIndex
      ensures endIndex < 0 || endIndex > size ==> r == size
    {
      if endIndex < 0 || endIndex > size then size else endIndex
    }

    /** The distance between taken indexes: 1 when no step was given. A step
      of 0 is kept. */
    function Step(): (r: int)
      ensures step == NotFound ==> r == 1
      ensures step != NotFound ==> r == step
    {
      if step == NotFound then 1 else step
    }
  }

  /** The reader's state: whether the first and second colons have been
      seen, and the bounds read so far. */
  datatype Scan = Scan(firstColon: bool, lastColon: bool, bounds: Slice)

  const Initial: Scan := Scan(false, false, Slice(NotFound, NotFound, NotFound))

  /** The value of a number item, as Math.abs(Integer.parseInt(item)). */
  function ItemValue(item: string): (r: Result<int>)
    ensures IsNumeric(item) && DigitsValue(item) <= IntMax ==> r == Ok(DigitsValue(item))
    ensures IsNumeric(item) && DigitsValue(item) > IntMax ==> r == Err(NumberFormat)
  {
    var v :- ParseInt(item);
    Ok(Abs32(v))
  }

  /** One item: a colon sets the first colon, then the second (any later
      colon changes nothing); a number fills the first bound its position
      allows that is still absent, or is ignored; anything else is ignored. */
  function Absorb(st: Scan, item: string): (r: Result<Scan>)
    ensures r.Err? ==> r.error == NumberFormat && IsNumeric(item) && DigitsValue(item) > IntMax
    ensures !IsNumeric(item) ==> r.Ok?
  {
    if item == ":" then
      if !st.firstColon then Ok(st.(firstColon := true)) else Ok(st.(lastColon := true))
    else if IsNumeric(item) then
      var b := st.bounds;
      if !st.firstColon && b.startIndex == NotFound then
        var v :- ItemValue(item); Ok(st.(bounds := b.(startIndex := v)))
      else if !st.lastColon && b.endIndex == NotFound then
        var v :- ItemValue(item); Ok(st.(bounds := b.(endIndex := v)))
      else if b.step == NotFound then
        var v :- ItemValue(item); Ok(st.(bounds := b.(step := v)))
      else Ok(st)
    else Ok(st)
  }

  /** The state after reading all items from the left. */
  function ScanAll(items: seq<string>): (r: Result<Scan>)
    ensures r.Err? ==> r.error == NumberFormat
    ensures r.Err? ==> exists i :: 0 <= i < |items| && IsNumeric(items[i]) && DigitsValue(items[i]) > IntMax
  {
    if items == [] then Ok(Initial)
    else
      var st :- ScanAll(items[..|items| - 1]);
      Absorb(st, items[|items| - 1])
  }

  /** The slice the items describe; an empty item list is an illegal argument. */
  function SliceOf(items: seq<string>): (r: Result<Slice>)
    ensures items == [] ==> r == Err(IllegalArgument)
    ensures items != [] && r.Err? ==> r.error == NumberFormat
    ensures r.Err? && items != [] ==> exists i :: 0 <= i < |items| && IsNumeric(items[i]) && DigitsValue(items[i]) > IntMax
  {
    if items == [] then Err(IllegalArgument)
    else
      var st :- ScanAll(items);
      Ok(st.bounds)
  }

  /** Reads the items one by one, as the slice constructor does. */
  method NewSlice(items: seq<string>) returns (r: Result<Slice>)
    ensures r == SliceOf(items)
  {
    if |items| == 0 {
      return Err(IllegalArgument);
    }
    var firstColon := false;
    var lastColon := false;
    var startIndex, endIndex, step := NotFound, NotFound, NotFound;
    var i := 0;
    while i < |items|
      invariant 0 <= i <= |items|
      invariant ScanAll(items[..i]) == Ok(Scan(firstColon, lastColon, Slice(startIndex, endIndex, step)))
    {
      var item := items[i];
      ScanStep(items, i, Scan(firstColon, lastColon, Slice(startIndex, endIndex, step)));
      if item == ":" {
        if !firstColon {
          firstColon := true;
        } else {
          lastColon := true;
        }
      } else if IsNumeric(item) {
        if !firstColon && startIndex == NotFound {
          var v := ItemValue(item);
          if v.Err? {
            ScanErrorSticks(items, i + 1);
            return Err(v.error);
          }
          startIndex := v.value;
        } else if !lastColon && endIndex == NotFound {
          var v := ItemValue(item);
          if v.Err? {
            ScanErrorSticks(items, i + 1);
            return Err(v.error);
          }
          endIndex := v.value;
        } else if step == NotFound {
          var v := ItemValue(item);
          if v.Err? {
            ScanErrorSticks(items, i + 1);
            return Err(v.error);
          }
          step := v.value;
        }
      }
      i := i + 1;
    }
    assert items[..i] == items;
    r := Ok(Slice(startIndex, endIndex, step));
  }

  /** `Slice.from`: lexes the raw index with the slice table and reads the
      token texts. */
  function SliceFrom(rawIndex: string): (r: Result<Slice>)
    ensures IsBlank(rawIndex) ==> r == Err(UnexpectedSymbol)
    ensures r.Err? ==> r.error == UnexpectedSymbol || r.error == NumberFormat
  {
    var tokens :- Tokenized(SliceTable, rawIndex);
    SliceOf(TextsOf(tokens))
  }

  function TextsOf(tokens: seq<Token>): (r: seq<string>)
    ensures |r| == |tokens|
    ensures forall i :: 0 <= i < |tokens| ==> r[i] == tokens[i].text
  {
    if tokens == [] then [] else TextsOf(tokens[..|tokens| - 1]) + [tokens[|tokens| - 1].text]
  }

  /** A bound, once read, is never overwritten by a later item. */
  lemma AbsorbKeepsBounds(st: Scan, item: string)
    requires Absorb(st, item).Ok?
    ensures var b, b' := st.bounds, Absorb(st, item).value.bounds;
      && (b.startIndex != NotFound ==> b'.startIndex == b.startIndex)
      && (b.endIndex != NotFound ==> b'.endIndex == b.endIndex)
      && (b.step != NotFound ==> b'.step == b.step)
    ensures st.firstColon ==> Absorb(st, item).value.firstColon
    ensures st.lastColon ==> Absorb(st, item).value.lastColon
  {
  }

  /** Over any run of items, bounds already read stay as they are. */
  lemma {:induction false} ScanKeepsBounds(items: seq<string>, k: nat)
    requires k <= |items| && ScanAll(items).Ok?
    ensures ScanAll(items[..k]).Ok?
    ensures var b, b' := ScanAll(items[..k]).value.bounds, ScanAll(items).value.bounds;
      && (b.startIndex != NotFound ==> b'.startIndex == b.startIndex)
      && (b.endIndex != NotFound ==> b'.endIndex == b.endIndex)
      && (b.step != NotFound ==> b'.step == b.step)
    decreases |items|
  {
    if k < |items| {
      var init := items[..|items| - 1];
      assert init[..k] == items[..k];
      ScanKeepsBounds(init, k);
      AbsorbKeepsBounds(ScanAll(init).value, items[|items| - 1]);
    } else {
      assert items[..k] == items;
    }
  }

  /** Reading bounds never makes them negative other than the -1 marker:
      every number read is a digit string within the int range. */
  lemma {:induction false} ScanBoundsAreMarkersOrNatural(items: seq<string>)
    requires ScanAll(items).Ok?
    ensures var b := ScanAll(items).value.bounds;
      b.startIndex >= NotFound && b.endIndex >= NotFound && b.step >= NotFound
  {
    if items != [] {
      ScanBoundsAreMarkersOrNatural(items[..|items| - 1]);
    }
  }

  /** Reading one more item continues from the state the earlier items left. */
  lemma ScanThen(items: seq<string>, item: string, st: Scan, st': Scan)
    requires ScanAll(items) == Ok(st) && Absorb(st, item) == Ok(st')
    ensures ScanAll(items + [item]) == Ok(st')
  {
    assert (items + [item])[..|items|] == items;
  }

  /** Reading one more item absorbs it into the state read so far. */
  lemma ScanStep(items: seq<string>, i: nat, st: Scan)
    requires i < |items| && ScanAll(items[..i]) == Ok(st)
    ensures ScanAll(items[..i + 1]) == Absorb(st, items[i])
  {
    assert items[..i + 1][..i] == items[..i];
  }

  /** A number item that cannot be parsed stops the reading: the error of the
      first failing item is the error of the whole list. */
  lemma {:induction false} ScanErrorSticks(items: seq<string>, k: nat)
    requires k <= |items| && ScanAll(items[..k]).Err?
    ensures ScanAll(items) == ScanAll(items[..k])
    decreases |items|
  {
    if k == |items| {
      assert items[..k] == items;
    } else {
      var init := items[..|items| - 1];
      assert init[..k] == items[..k];
      ScanErrorSticks(init, k);
    }
  }

  /** With numbers n1, n2, n3 within the int range, "n1:n2:n3" reads as
      start n1, end n2, step n3. */
  lemma FullSlice(a: string, b: string, c: string)
    requires IsNumeric(a) && IsNumeric(b) && IsNumeric(c)
    requires DigitsValue(a) <= IntMax && DigitsValue(b) <= IntMax && DigitsValue(c) <= IntMax
    ensures SliceOf([a, ":", b, ":", c]) == Ok(Slice(DigitsValue(a), DigitsValue(b), DigitsValue(c)))
  {
    NotColon(a);
    NotColon(b);
    NotColon(c);
    var va, vb, vc := DigitsValue(a), DigitsValue(b), DigitsValue(c);
    var s1 := Scan(false, false, Slice(va, NotFound, NotFound));
    var s2 := Scan(true, false, Slice(va, NotFound, NotFound));
    var s3 := Scan(true, false, Slice(va, vb, NotFound));
    var s4 := Scan(true, true, Slice(va, vb, NotFound));
    var s5 := Scan(true, true, Slice(va, vb, vc));
    ScanThen([], a, Initial, s1);
    assert [] + [a] == [a];
    ScanThen([a], ":", s1, s2);
    assert [a] + [":"] == [a, ":"];
    ScanThen([a, ":"], b, s2, s3);
    assert [a, ":"] + [b] == [a, ":", b];
    ScanThen([a, ":", b], ":", s3, s4);
    assert [a, ":", b] + [":"] == [a, ":", b, ":"];
    ScanThen([a, ":", b, ":"], c, s4, s5);
    assert [a, ":", b, ":"] + [c] == [a, ":", b, ":", c];
  }

  /** "n1:n2" reads as start n1 and end n2 with no step. */
  lemma StartAndEnd(a: string, b: string)
    requires IsNumeric(a) && IsNumeric(b)
    requires DigitsValue(a) <= IntMax && DigitsValue(b) <= IntMax
    ensures SliceOf([a, ":", b]) == Ok(Slice(DigitsValue(a), DigitsValue(b), NotFound))
  {
    NotColon(a);
    NotColon(b);
    var va, vb := DigitsValue(a), DigitsValue(b);
    var s1 := Scan(false, false, Slice(va, NotFound, NotFound));
    var s2 := Scan(true, false, Slice(va, NotFound, NotFound));
    var s3 := Scan(true, false, Slice(va, vb, NotFound));
    ScanThen([], a, Initial, s1);
    assert [] + [a] == [a];
    ScanThen([a], ":", s1, s2);
    assert [a] + [":"] == [a, ":"];
    ScanThen([a, ":"], b, s2, s3);
    assert [a, ":"] + [b] == [a, ":", b];
  }

  /** "::n" reads as a step alone. */
  lemma StepOnly(c: string)
    requires IsNumeric(c) && DigitsValue(c) <= IntMax
    ensures SliceOf([":", ":", c]) == Ok(Slice(NotFound, NotFound, DigitsValue(c)))
  {
    NotColon(c);
    var s1 := Scan(true, false, Slice(NotFound, NotFound, NotFound));
    var s2 := Scan(true, true, Slice(NotFound, NotFound, NotFound));
    var s3 := Scan(true, true, Slice(NotFound, NotFound, DigitsValue(c)));
    ScanThen([], ":", Initial, s1);
    assert [] + [":"] == [":"];
    ScanThen([":"], ":", s1, s2);
    assert [":"] + [":"] == [":", ":"];
    ScanThen([":", ":"], c, s2, s3);
    assert [":", ":"] + [c] == [":", ":", c];
  }

  /** ":n" reads as an end alone. */
  lemma EndOnly(b: string)
    requires IsNumeric(b) && DigitsValue(b) <= IntMax
    ensures SliceOf([":", b]) == Ok(Slice(NotFound, DigitsValue(b), NotFound))
  {
    NotColon(b);
    var s1 := Scan(true, false, Slice(NotFound, NotFound, NotFound));
    var s2 := Scan(true, false, Slice(NotFound, DigitsValue(b), NotFound));
    ScanThen([], ":", Initial, s1);
    assert [] + [":"] == [":"];
    ScanThen([":"], b, s1, s2);
    assert [":"] + [b] == [":", b];
  }

  /** ":" and "::" read as no bounds at all: start 0, the whole array, step 1. */
  lemma ColonsOnly()
    ensures SliceOf([":"]) == Ok(Slice(NotFound, NotFound, NotFound))
    ensures SliceOf([":", ":"]) == Ok(Slice(NotFound, NotFound, NotFound))
  {
    var s1 := Scan(true, false, Slice(NotFound, NotFound, NotFound));
    var s2 := Scan(true, true, Slice(NotFound, NotFound, NotFound));
    ScanThen([], ":", Initial, s1);
    assert [] + [":"] == [":"];
    ScanThen([":"], ":", s1, s2);
    assert [":"] + [":"] == [":", ":"];
  }

  lemma NotColon(s: string)
    requires IsNumeric(s)
    ensures s != ":"
  {
    assert IsDigit(s[0]);
  }

  /** An empty item list is rejected. */
  lemma NoItems()
    ensures SliceOf([]) == Err(IllegalArgument)
  {
  }
}
