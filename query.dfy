/** A parsed query: its tokens and a cursor over them. Paths are read one
    dot-separated segment at a time, and a query can be forked into a new
    one over the tokens not yet read. */
module Queries {
  import opened Results
  import opened Strings
  import opened Tokens
  import opened Lexer

  /** How many tokens precede the first dot token (all of them if none). */
  function SegmentLength(tokens: seq<Token>): (k: nat)
    ensures k <= |tokens|
    ensures forall i :: 0 <= i < k ==> tokens[i].kind != DotSymbol
    ensures k < |tokens| ==> tokens[k].kind == DotSymbol
  {
    if tokens == [] || tokens[0].kind == DotSymbol then 0 else 1 + SegmentLength(tokens[1..])
  }

  /** The path segment at the head of a token list: the texts of the tokens
      before the first dot, joined. */
  function Segment(tokens: seq<Token>): (r: string)
    ensures tokens == [] || tokens[0].kind == DotSymbol ==> r == []
  {
    Joined(tokens[..SegmentLength(tokens)])
  }

  /** How many tokens reading that segment consumes: the segment and the dot
      after it, if there is one. */
  function Consumed(tokens: seq<Token>): (n: nat)
    ensures n <= |tokens|
  {
    var k := SegmentLength(tokens);
    if k < |tokens| then k + 1 else k
  }

  /** A segment that is not blank consumes at least one token. */
  lemma NonBlankSegmentConsumes(tokens: seq<Token>)
    requires !IsBlank(Segment(tokens))
    ensures Consumed(tokens) > 0
  {
  }

  /** Reading a segment loses only the dot that ends it: the segment, then
      the dot (if any), then the unread tokens give back the whole text. */
  lemma SegmentThenRest(tokens: seq<Token>)
    ensures Joined(tokens) == Segment(tokens)
      + Joined(tokens[SegmentLength(tokens)..Consumed(tokens)]) + Joined(tokens[Consumed(tokens)..])
    ensures Consumed(tokens) > SegmentLength(tokens) ==>
      tokens[SegmentLength(tokens)..Consumed(tokens)] == [tokens[SegmentLength(tokens)]]
  {
    var k := SegmentLength(tokens);
    var c := Consumed(tokens);
    JoinedSplit3(tokens, k, c);
  }

  lemma JoinedSplit3(tokens: seq<Token>, k: nat, c: nat)
    requires k <= c <= |tokens|
    ensures Joined(tokens) == Joined(tokens[..k]) + Joined(tokens[k..c]) + Joined(tokens[c..])
  {
    Split3(tokens, k, c);
    JoinedConcat(tokens[..k], tokens[k..c] + tokens[c..]);
    JoinedConcat(tokens[k..c], tokens[c..]);
  }

  lemma Split3(tokens: seq<Token>, k: nat, c: nat)
    requires k <= c <= |tokens|
    ensures tokens == tokens[..k] + (tokens[k..c] + tokens[c..])
  {
  }

  /** A segment without dot tokens is read whole, up to the next dot. */
  lemma SegmentOfDotFree(a: seq<Token>, b: seq<Token>)
    requires forall i :: 0 <= i < |a| ==> a[i].kind != DotSymbol
    requires b == [] || b[0].kind == DotSymbol
    ensures SegmentLength(a + b) == |a|
    ensures Segment(a + b) == Joined(a)
    ensures Consumed(a + b) == if b == [] then |a| else |a| + 1
  {
    SegmentLengthIs(a + b, |a|);
    assert (a + b)[..|a|] == a;
  }

  /** The dot-free prefix is unique: whatever index has only non-dots before
      it and a dot (or the end) at it is the segment length. */
  lemma SegmentLengthIs(tokens: seq<Token>, k: nat)
    requires k <= |tokens|
    requires forall i :: 0 <= i < k ==> tokens[i].kind != DotSymbol
    requires k < |tokens| ==> tokens[k].kind == DotSymbol
    ensures SegmentLength(tokens) == k
  {
  }

  lemma ExtendSegment(tokens: seq<Token>, start: nat, p: nat)
    requires start <= p < |tokens|
    ensures Joined(tokens[start..p + 1]) == Joined(tokens[start..p]) + tokens[p].text
  {
    assert tokens[start..p + 1] == tokens[start..p] + [tokens[p]];
    JoinedConcat(tokens[start..p], [tokens[p]]);
  }

  lemma SegmentEndsAtDot(tokens: seq<Token>, start: nat, p: nat)
    requires start <= p < |tokens| && tokens[p].kind == DotSymbol
    requires forall i :: start <= i < p ==> tokens[i].kind != DotSymbol
    ensures Segment(tokens[start..]) == Joined(tokens[start..p])
    ensures Consumed(tokens[start..]) == p + 1 - start
  {
    assert tokens[start..] == tokens[start..p] + tokens[p..];
    SegmentOfDotFree(tokens[start..p], tokens[p..]);
  }

  lemma SegmentRunsToEnd(tokens: seq<Token>, start: nat)
    requires start <= |tokens|
    requires forall i :: start <= i < |tokens| ==> tokens[i].kind != DotSymbol
    ensures Segment(tokens[start..]) == Joined(tokens[start..])
    ensures Consumed(tokens[start..]) == |tokens| - start
  {
    assert tokens[start..] == tokens[start..] + [];
    SegmentOfDotFree(tokens[start..], []);
  }

  class Query {
    var tokens: seq<Token>
    /** The index of the next token to read (the list iterator's nextIndex). */
    var position: nat

    ghost predicate Valid()
      reads this
    {
      position <= |tokens|
    }

    constructor Over(tokens: seq<Token>)
      ensures Valid() && this.tokens == tokens && position == 0
    {
      this.tokens := tokens;
      position := 0;
    }

    predicate HasNext()
      reads this
    {
      position < |tokens|
    }

    /** The next token; past the end the iterator fails with NoSuchElement. */
    method Next() returns (r: Result<Token>)
      requires Valid()
      modifies this
      ensures Valid() && tokens == old(tokens)
      ensures old(position) < |tokens| ==> r == Ok(tokens[old(position)]) && position == old(position) + 1
      ensures old(position) == |tokens| ==> r == Err(NoSuchElement) && position == old(position)
    {
      if position < |tokens| {
        r := Ok(tokens[position]);
        position := position + 1;
      } else {
        r := Err(NoSuchElement);
      }
    }

    /** Reads the tokens up to the next dot, which is consumed but not
      returned, and returns their texts joined; "" when nothing is left. */
    method NextPath() returns (path: string)
      requires Valid()
      modifies this
      ensures Valid() && tokens == old(tokens)
      ensures path == Segment(old(tokens)[old(position)..])
      ensures position == old(position) + Consumed(old(tokens)[old(position)..])
    {
      ghost var start := position;
      path := [];
      while HasNext()
        invariant start <= position <= |tokens| && tokens == old(tokens) && start == old(position)
        invariant forall i :: start <= i < position ==> tokens[i].kind != DotSymbol
        invariant path == Joined(tokens[start..position])
        decreases |tokens| - position
      {
        var token := tokens[position];
        if token.kind != DotSymbol {
          ExtendSegment(tokens, start, position);
          path := path + token.text;
          position := position + 1;
        } else {
          SegmentEndsAtDot(tokens, start, position);
          position := position + 1;
          return;
        }
      }
      SegmentRunsToEnd(tokens, start);
      assert tokens[start..position] == tokens[start..];
    }

    /** How many tokens are still unread. */
    function LeftTokens(): (n: int)
      requires Valid()
      reads this
      ensures n >= 0 && n == |tokens| - position
      ensures n == 0 <==> !HasNext()
    {
      |tokens| - position
    }

    /** A new query over exactly the unread tokens; this one is unchanged.
      Without unread tokens it fails with EndOfQuery. */
    method Fork() returns (r: Result<Query>)
      requires Valid()
      ensures r.Ok? ==> (fresh(r.value) && r.value.Valid()
        && r.value.tokens == tokens[position..] && r.value.position == 0)
      ensures r.Err? <==> position == |tokens|
      ensures r.Err? ==> r.error == EndOfQuery
    {
      if position < |tokens| {
        var q := new Query.Over(tokens[position..]);
        r := Ok(q);
      } else {
        r := Err(EndOfQuery);
      }
    }
  }

  /** Parses a query text with the query table; the scan's failures
      (blank text, nothing recognised) come back as errors. */
  method From(query: string) returns (r: Result<Query>)
    ensures r.Ok? ==> (fresh(r.value) && r.value.Valid() && r.value.position == 0
      && Tokenized(QueryTable, query) == Ok(r.value.tokens))
    ensures r.Err? <==> Tokenized(QueryTable, query).Err?
    ensures r.Err? ==> r.error == UnexpectedSymbol
  {
    var tokens := TokenizeFresh(QueryTable, query);
    if tokens.Err? {
      r := Err(tokens.error);
    } else {
      var q := new Query.Over(tokens.value);
      r := Ok(q);
    }
  }

  /** An empty or blank query text cannot be parsed. */
  lemma BlankQueryFails(query: string)
    requires IsBlank(query)
    ensures Tokenized(QueryTable, query) == Err(UnexpectedSymbol)
  {
  }

  /** The tokens of "$people.address.city": three segments, "$people",
      "address" and "city", read by three calls. */
  const PeopleAddressCity: seq<Token> := [
    Token(DollarSymbol, "$"), Token(Variable, "people"), Token(DotSymbol, "."),
    Token(Variable, "address"), Token(DotSymbol, "."), Token(Variable, "city")]

  /** The tokens of a `$` path of three names. */
  function DollarPath(a: string, b: string, c: string): seq<Token> {
    [Token(DollarSymbol, "$"), Token(Variable, a), Token(DotSymbol, "."),
     Token(Variable, b), Token(DotSymbol, "."), Token(Variable, c)]
  }

  /** A dollar path is spelled without spaces. */
  lemma DollarPathSpelled(a: string, b: string, c: string)
    ensures Spelled(DollarPath(a, b, c), Gapless6) == "$" + (a + ("." + (b + ("." + c))))
  {
    var e: string := [];
    var t5, g5 := [Token(Variable, c)], [e];
    var t4, g4 := [Token(DotSymbol, ".")] + t5, [e] + g5;
    var t3, g3 := [Token(Variable, b)] + t4, [e] + g4;
    var t2, g2 := [Token(DotSymbol, ".")] + t3, [e] + g3;
    var t1, g1 := [Token(Variable, a)] + t2, [e] + g2;
    assert DollarPath(a, b, c) == [Token(DollarSymbol, "$")] + t1;
    assert Gapless6 == [e] + g1;
    SpelledPrependTight(Token(Variable, c), [], []);
    assert c + [] == c;
    SpelledPrependTight(Token(DotSymbol, "."), t5, g5);
    SpelledPrependTight(Token(Variable, b), t4, g4);
    SpelledPrependTight(Token(DotSymbol, "."), t3, g3);
    SpelledPrependTight(Token(Variable, a), t2, g2);
    SpelledPrependTight(Token(DollarSymbol, "$"), t1, g1);
  }

  /** The query table reads every token of a dollar path back from its place. */
  lemma DollarPathReadable(a: string, b: string, c: string)
    requires IsName(a) && IsName(b) && IsName(c)
    ensures ReadableSpelling(QueryTable, DollarPath(a, b, c), Gapless6, [0, 6, 2, 6, 2, 6])
  {
    var ts, gaps := DollarPath(a, b, c), Gapless6;
    var ks: seq<nat> := [0, 6, 2, 6, 2, 6];
    forall i | 0 <= i < 6
      ensures AllSpaces(gaps[i]) && ReadBack(QueryTable, ks[i], ts[i], After(ts, gaps, i))
    {
      if i % 2 == 1 {
        QueryNameReadBack(ts[i].text, After(ts, gaps, i));
      } else {
        QuerySymbolReadBack(ks[i], After(ts, gaps, i));
      }
    }
  }

  /** A dollar path of three names lexes back to its six tokens. */
  lemma DollarPathLexes(a: string, b: string, c: string)
    requires IsName(a) && IsName(b) && IsName(c)
    ensures Tokenized(QueryTable, "$" + (a + ("." + (b + ("." + c))))) == Ok(DollarPath(a, b, c))
  {
    TablesAreWellFormed();
    DollarPathReadable(a, b, c);
    TokenizedSpelled(QueryTable, DollarPath(a, b, c), Gapless6, [0, 6, 2, 6, 2, 6]);
    DollarPathSpelled(a, b, c);
  }

  /** "$people.address.city" lexes to the six tokens above. */
  lemma PeopleAddressCityLexes(text: string)
    requires text == "$people.address.city"
    ensures Tokenized(QueryTable, text) == Ok(PeopleAddressCity)
  {
    var people, address, city := "people", "address", "city";
    assert text == "$" + (people + ("." + (address + ("." + city))));
    PeopleAddressCityNames(people, address, city);
    DollarPathLexes(people, address, city);
  }

  /** The three names of the example are names. */
  lemma PeopleAddressCityNames(people: string, address: string, city: string)
    requires people == "people" && address == "address" && city == "city"
    ensures IsName(people) && IsName(address) && IsName(city)
  {
  }

  /** The tokens of "$people.address.city" are read as three paths, after
      which nothing is left. */
  lemma SegmentsOfPeopleAddressCity()
    ensures Segment(PeopleAddressCity) == "$people" && Consumed(PeopleAddressCity) == 3
    ensures Segment(PeopleAddressCity[3..]) == "address" && Consumed(PeopleAddressCity[3..]) == 2
    ensures Segment(PeopleAddressCity[5..]) == "city" && Consumed(PeopleAddressCity[5..]) == 1
    ensures Segment(PeopleAddressCity[6..]) == "" && Consumed(PeopleAddressCity[6..]) == 0
  {
    var ts := PeopleAddressCity;
    var people := [ts[0], ts[1]];
    assert ts == people + ts[2..];
    SegmentOfDotFree(people, ts[2..]);
    JoinedConcat([ts[0]], [ts[1]]);
    assert [ts[0]] + [ts[1]] == people;
    assert Joined([ts[1]]) == "people";
    assert ts[3..] == [ts[3]] + ts[4..];
    SegmentOfDotFree([ts[3]], ts[4..]);
    assert ts[5..] == [ts[5]] + [];
    SegmentOfDotFree([ts[5]], []);
  }

  /** The query text "$people.address.city" lexes to PeopleAddressCity and
      is read as three paths, "$people", "address" and "city", after which
      nothing is left. */
  lemma PeopleAddressCityPaths(text: string)
    requires text == "$people.address.city"
    ensures Tokenized(QueryTable, text) == Ok(PeopleAddressCity)
    ensures Segment(PeopleAddressCity) == "$people" && Consumed(PeopleAddressCity) == 3
    ensures Segment(PeopleAddressCity[3..]) == "address" && Consumed(PeopleAddressCity[3..]) == 2
    ensures Segment(PeopleAddressCity[5..]) == "city" && Consumed(PeopleAddressCity[5..]) == 1
    ensures Segment(PeopleAddressCity[6..]) == "" && Consumed(PeopleAddressCity[6..]) == 0
  {
    PeopleAddressCityLexes(text);
    SegmentsOfPeopleAddressCity();
  }
}
