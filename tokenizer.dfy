/** The engine's lexer: an ordered list of patterns tried at the start of
    the remaining text, the first that matches winning; the matched prefix
    becomes a token and the rest, trimmed, is scanned again. */
module Lexer {
  import opened Results
  import opened Strings
  import opened Tokens

  /** The index of the first pattern, from position `j` on, that matches at
      the start of `s`. */
  function FirstMatchFrom(patterns: seq<TokenPattern>, s: string, j: nat): (r: Option<nat>)
    requires j <= |patterns|
    ensures r.Some? ==> j <= r.value < |patterns| && MatchLength(patterns[r.value].regex, s) > 0
    ensures r.Some? ==> forall k :: j <= k < r.value ==> MatchLength(patterns[k].regex, s) == 0
    ensures r.None? ==> forall k :: j <= k < |patterns| ==> MatchLength(patterns[k].regex, s) == 0
    decreases |patterns| - j
  {
    if j == |patterns| then None
    else if MatchLength(patterns[j].regex, s) > 0 then Some(j)
    else FirstMatchFrom(patterns, s, j + 1)
  }

  /** The first pattern in registration order that matches; it wins even
      when a later one would match a longer prefix. */
  function FirstMatch(patterns: seq<TokenPattern>, s: string): Option<nat> {
    FirstMatchFrom(patterns, s, 0)
  }

  /** The tokens a scan of `s` produces, and the text left when it stops. */
  datatype Lexed = Lexed(tokens: seq<Token>, rest: string)

  /** The scan: it stops on a blank text or when no pattern matches, and
      otherwise emits the trimmed matched prefix and scans the trimmed
      remainder. The text is not trimmed before the first step. */
  function Lex(patterns: seq<TokenPattern>, s: string): (r: Lexed)
    ensures IsBlank(s) ==> r.tokens == []
    ensures r.tokens == [] ==> r.rest == s
    decreases |s|
  {
    if IsBlank(s) then Lexed([], s)
    else match FirstMatch(patterns, s)
      case None => Lexed([], s)
      case Some(i) =>
        var n := MatchLength(patterns[i].regex, s);
        var next := Lex(patterns, Trim(s[n..]));
        Lexed([Token(patterns[i].kind, Trim(s[..n]))] + next.tokens, next.rest)
  }

  /** One step of the scan, when the pattern at `i` is the first to match. */
  lemma LexStep(patterns: seq<TokenPattern>, s: string, i: nat)
    requires !IsBlank(s) && FirstMatch(patterns, s) == Some(i)
    ensures i < |patterns| && 0 < MatchLength(patterns[i].regex, s)
    ensures var n := MatchLength(patterns[i].regex, s);
      Lex(patterns, s).tokens == [Token(patterns[i].kind, Trim(s[..n]))] + Lex(patterns, Trim(s[n..])).tokens
      && Lex(patterns, s).rest == Lex(patterns, Trim(s[n..])).rest
  {
  }

  /** One step of the scan, seen from a token list it is appended to; the
      remainder shrinks. */
  lemma AppendStep(patterns: seq<TokenPattern>, s: string, i: nat, n: nat, acc: seq<Token>)
    requires !IsBlank(s) && FirstMatch(patterns, s) == Some(i)
    requires i < |patterns| && n == MatchLength(patterns[i].regex, s)
    ensures |Trim(s[n..])| < |s|
    ensures acc + Lex(patterns, s).tokens
      == (acc + [Token(patterns[i].kind, Trim(s[..n]))]) + Lex(patterns, Trim(s[n..])).tokens
  {
    LexStep(patterns, s, i);
    TrimNoLonger(s[n..]);
    AppendAssoc(acc, [Token(patterns[i].kind, Trim(s[..n]))], Lex(patterns, Trim(s[n..])).tokens);
  }

  lemma AppendAssoc(a: seq<Token>, b: seq<Token>, c: seq<Token>)
    ensures a + (b + c) == (a + b) + c
  {
  }

  lemma TrimNoLonger(s: string)
    ensures |Trim(s)| <= |s|
  {
  }

  /** What `tokenize` on a fresh lexer returns: the scanned tokens, or the
      UnexpectedSymbol failure for a blank text or an empty scan. */
  function Tokenized(patterns: seq<TokenPattern>, s: string): (r: Result<seq<Token>>)
    ensures IsBlank(s) ==> r == Err(UnexpectedSymbol)
    ensures r.Ok? ==> r.value == Lex(patterns, s).tokens && r.value != []
    ensures r.Err? ==> r.error == UnexpectedSymbol
  {
    var tokens := Lex(patterns, s).tokens;
    if tokens == [] || IsBlank(s) then Err(UnexpectedSymbol) else Ok(tokens)
  }

  /** A lexer: its ordered patterns and the tokens it has produced so far
      (they accumulate across calls). */
  class Tokenizer {
    var patterns: seq<TokenPattern>
    var tokens: seq<Token>

    constructor ()
      ensures patterns == [] && tokens == []
    {
      patterns := [];
      tokens := [];
    }

    /** Registers a pattern after the existing ones. */
    method WithPattern(regex: Regex, kind: int) returns (self: Tokenizer)
      modifies this
      ensures self == this
      ensures patterns == old(patterns) + [TokenPattern(regex, kind)]
      ensures tokens == old(tokens)
    {
      patterns := patterns + [TokenPattern(regex, kind)];
      self := this;
    }

    /** Scans `expression`, appends what it finds to the token list and
      returns the whole list, failing when the list is empty or the text
      is blank. */
    method Tokenize(expression: string) returns (r: Result<seq<Token>>)
      modifies this
      ensures patterns == old(patterns)
      ensures tokens == old(tokens) + Lex(patterns, expression).tokens
      ensures r == if tokens == [] || IsBlank(expression) then Err(UnexpectedSymbol) else Ok(tokens)
    {
      var last := expression;
      var atLeastOneMatch := true;
      while !IsBlank(last) && atLeastOneMatch
        invariant patterns == old(patterns)
        invariant tokens + Lex(patterns, last).tokens == old(tokens) + Lex(patterns, expression).tokens
        invariant !atLeastOneMatch ==> FirstMatch(patterns, last).None?
        decreases |last|, atLeastOneMatch
      {
        atLeastOneMatch := false;
        var j := 0;
        while j < |patterns|
          invariant 0 <= j <= |patterns|
          invariant FirstMatchFrom(patterns, last, j) == FirstMatch(patterns, last)
          decreases |patterns| - j
        {
          var n := MatchLength(patterns[j].regex, last);
          if n > 0 {
            assert FirstMatchFrom(patterns, last, j) == Some(j);
            AppendStep(patterns, last, j, n, tokens);
            var next := Trim(last[n..]);
            var token := Token(patterns[j].kind, Trim(last[..n]));
            tokens := tokens + [token];
            last := next;
            atLeastOneMatch := true;
            break;
          }
          j := j + 1;
        }
      }
      LexStopsWithoutMatch(patterns, last);
      assert tokens + [] == tokens;
      if tokens == [] || IsBlank(expression) {
        r := Err(UnexpectedSymbol);
      } else {
        r := Ok(tokens);
      }
    }
  }

  /** A lexer over a pattern table, built by registering each pattern in turn. */
  method NewTokenizer(table: seq<TokenPattern>) returns (t: Tokenizer)
    ensures fresh(t)
    ensures t.patterns == table && t.tokens == []
  {
    t := new Tokenizer();
    var i := 0;
    while i < |table|
      invariant 0 <= i <= |table|
      invariant fresh(t)
      invariant t.patterns == table[..i] && t.tokens == []
    {
      t := t.WithPattern(table[i].regex, table[i].kind);
      assert table[..i + 1] == table[..i] + [table[i]];
      i := i + 1;
    }
  }

  /** Running a freshly built lexer once is exactly `Tokenized`. */
  method TokenizeFresh(table: seq<TokenPattern>, expression: string) returns (r: Result<seq<Token>>)
    ensures r == Tokenized(table, expression)
  {
    var t := NewTokenizer(table);
    r := t.Tokenize(expression);
    assert [] + Lex(table, expression).tokens == Lex(table, expression).tokens;
  }

  /** The criteria table: names, numbers, comparisons and the two logical operators. */
  const CriteriaTable: seq<TokenPattern> := [
    TokenPattern(VariablePattern, Variable), TokenPattern(NumberPattern, Number),
    TokenPattern(EqPattern, Eq), TokenPattern(NeqPattern, Neq),
    TokenPattern(GtetPattern, Gtet), TokenPattern(GtPattern, Gt),
    TokenPattern(LtetPattern, Ltet), TokenPattern(LtPattern, Lt),
    TokenPattern(AndPattern, And), TokenPattern(OrPattern, Or)]

  /** The query table: symbols, names, numbers, brackets, then `=>` ahead of
      the comparisons and the logical operators. */
  const QueryTable: seq<TokenPattern> := [
    TokenPattern(DollarPattern, DollarSymbol), TokenPattern(AtPattern, AtSymbol),
    TokenPattern(DotPattern, DotSymbol), TokenPattern(QuestionMarkPattern, QuestionMark),
    TokenPattern(ColonPattern, Colon), TokenPattern(QuotePattern, Quote),
    TokenPattern(VariablePattern, Variable), TokenPattern(NumberPattern, Number),
    TokenPattern(OpenBracketPattern, OpenBracket), TokenPattern(CloseBracketPattern, CloseBracket),
    TokenPattern(OpenSqBracketPattern, OpenSqBracket), TokenPattern(CloseSqBracketPattern, CloseSqBracket),
    TokenPattern(OpenCurlyBracePattern, OpenCurlyBrace), TokenPattern(CloseCurlyBracePattern, CloseCurlyBrace),
    TokenPattern(ThenPattern, Then), TokenPattern(EqPattern, Eq), TokenPattern(NeqPattern, Neq),
    TokenPattern(GtetPattern, Gtet), TokenPattern(GtPattern, Gt),
    TokenPattern(LtetPattern, Ltet), TokenPattern(LtPattern, Lt),
    TokenPattern(AndPattern, And), TokenPattern(OrPattern, Or)]

  /** The slice table: numbers and colons only. */
  const SliceTable: seq<TokenPattern> := [
    TokenPattern(NumberPattern, Number), TokenPattern(ColonPattern, Colon)]

  /** The comparison table: the six comparison operators. */
  const ComparisonTable: seq<TokenPattern> := [
    TokenPattern(EqPattern, Eq), TokenPattern(NeqPattern, Neq),
    TokenPattern(GtetPattern, Gtet), TokenPattern(GtPattern, Gt),
    TokenPattern(LtetPattern, Ltet), TokenPattern(LtPattern, Lt)]

  predicate AllWellFormed(table: seq<TokenPattern>) {
    forall i :: 0 <= i < |table| ==> WellFormed(table[i].regex)
  }

  /** No table holds a pattern that could match whitespace or `#`. */
  lemma TablesAreWellFormed()
    ensures AllWellFormed(CriteriaTable) && AllWellFormed(QueryTable)
    ensures AllWellFormed(SliceTable) && AllWellFormed(ComparisonTable)
  {
  }

  /** The characters of `s` that trimming could drop, removed everywhere. */
  function Untrimmed(s: string): (r: string)
    ensures |r| <= |s|
  {
    if s == [] then [] else (if IsTrimmable(s[0]) then [] else [s[0]]) + Untrimmed(s[1..])
  }

  lemma UntrimmedAppend(a: string, b: string)
    ensures Untrimmed(a + b) == Untrimmed(a) + Untrimmed(b)
  {
    if a != [] {
      assert (a + b)[1..] == a[1..] + b;
      UntrimmedAppend(a[1..], b);
    } else {
      assert a + b == b;
    }
  }

  lemma UntrimmedVisible(s: string)
    requires forall i :: 0 <= i < |s| ==> IsVisible(s[i])
    ensures Untrimmed(s) == s
  {
  }

  lemma UntrimmedTrimmable(s: string)
    requires forall i :: 0 <= i < |s| ==> IsTrimmable(s[i])
    ensures Untrimmed(s) == []
  {
  }

  /** Trimming drops only characters that `Untrimmed` drops anyway. */
  lemma UntrimmedTrim(s: string)
    ensures Untrimmed(Trim(s)) == Untrimmed(s)
  {
    var a := |s| - |TrimStart(s)|;
    TrimBounds(s, a, a + |Trim(s)|);
    UntrimmedAround(s, a, a + |Trim(s)|);
  }

  lemma UntrimmedAround(s: string, a: int, b: int)
    requires TrimmedBetween(s, a, b)
    ensures Untrimmed(Trim(s)) == Untrimmed(s)
  {
    SplitAround(s, a, b);
    UntrimmedAppend(s[..a], s[a..b] + s[b..]);
    UntrimmedAppend(s[a..b], s[b..]);
    UntrimmedPrefix(s, a);
    UntrimmedSuffix(s, b);
  }

  lemma SplitAround(s: string, a: int, b: int)
    requires 0 <= a <= b <= |s|
    ensures s == s[..a] + (s[a..b] + s[b..])
  {
  }

  lemma SplitAt(s: string, n: int)
    requires 0 <= n <= |s|
    ensures s == s[..n] + s[n..]
  {
  }

  lemma UntrimmedPrefix(s: string, a: int)
    requires 0 <= a <= |s| && forall i :: 0 <= i < a ==> IsTrimmable(s[i])
    ensures Untrimmed(s[..a]) == []
  {
    assert forall i :: 0 <= i < a ==> s[..a][i] == s[i];
    UntrimmedTrimmable(s[..a]);
  }

  lemma UntrimmedSuffix(s: string, b: int)
    requires 0 <= b <= |s| && forall i :: b <= i < |s| ==> IsTrimmable(s[i])
    ensures Untrimmed(s[b..]) == []
  {
    assert forall i :: 0 <= i < |s| - b ==> s[b..][i] == s[b + i];
    UntrimmedTrimmable(s[b..]);
  }

  /** A text without trimmable characters is its own trim. */
  lemma TrimVisible(s: string)
    requires forall i :: 0 <= i < |s| ==> !IsTrimmable(s[i])
    ensures Trim(s) == s
  {
    assert TrimStart(s) == s;
  }

  /** One scan step: the token is the whole matched prefix, made of visible
      characters. */
  lemma MatchedToken(re: Regex, s: string, n: nat, m: string)
    requires WellFormed(re) && n == MatchLength(re, s) && 0 < n <= |s| && m == s[..n]
    ensures |m| > 0 && forall i :: 0 <= i < |m| ==> IsVisible(m[i])
  {
    MatchIsVisible(re, s);
    forall i | 0 <= i < |m|
      ensures IsVisible(m[i])
    {
      assert m[i] == s[i];
    }
  }

  lemma VisibleIsOwnTrim(m: string)
    requires forall i :: 0 <= i < |m| ==> IsVisible(m[i])
    ensures Trim(m) == m
  {
    forall i | 0 <= i < |m|
      ensures !IsTrimmable(m[i])
    {
      VisibleIsNotSpace(m[i]);
    }
    TrimVisible(m);
  }

  /** A scan loses only trimmable characters: the token texts followed by
      what is left hold every other character of the input, in order. With a
      blank remainder, this is the input without its spaces. */
  lemma {:induction false} LexKeepsEveryVisibleChar(patterns: seq<TokenPattern>, s: string)
    requires AllWellFormed(patterns)
    ensures Joined(Lex(patterns, s).tokens) + Untrimmed(Lex(patterns, s).rest) == Untrimmed(s)
    decreases |s|
  {
    if IsBlank(s) {
    } else {
      match FirstMatch(patterns, s)
      case None =>
      case Some(i) =>
        var n, m, next := ScanStep(patterns, s, i);
        LexKeepsEveryVisibleChar(patterns, next);
        var tail := Lex(patterns, next);
        KeptAcrossStep(s, n, m, patterns[i].kind, tail.tokens, tail.rest);
    }
  }

  /** One step of the scan of a text whose first match is the pattern at
      `i`: the token is the visible matched prefix `m` itself, and the scan
      goes on with the trimmed remainder. */
  lemma ScanStep(patterns: seq<TokenPattern>, s: string, i: nat) returns (n: nat, m: string, next: string)
    requires AllWellFormed(patterns) && !IsBlank(s) && FirstMatch(patterns, s) == Some(i)
    ensures i < |patterns| && 0 < n <= |s| && m == s[..n] && next == Trim(s[n..])
    ensures |m| > 0 && forall k :: 0 <= k < |m| ==> IsVisible(m[k])
    ensures Lex(patterns, s).tokens == [Token(patterns[i].kind, m)] + Lex(patterns, next).tokens
    ensures Lex(patterns, s).rest == Lex(patterns, next).rest
  {
    LexStep(patterns, s, i);
    n := MatchLength(patterns[i].regex, s);
    m := s[..n];
    next := Trim(s[n..]);
    MatchedToken(patterns[i].regex, s, n, m);
    VisibleIsOwnTrim(m);
  }

  /** One scan step keeps every visible character: the matched text, then
      what the scan of the trimmed remainder keeps. */
  lemma KeptAcrossStep(s: string, n: nat, m: string, kind: int, tokens: seq<Token>, rest: string)
    requires n <= |s| && m == s[..n] && forall i :: 0 <= i < |m| ==> IsVisible(m[i])
    requires Joined(tokens) + Untrimmed(rest) == Untrimmed(Trim(s[n..]))
    ensures Joined([Token(kind, m)] + tokens) + Untrimmed(rest) == Untrimmed(s)
  {
    StepKeepsVisible(s, n, m);
    UntrimmedTrim(s[n..]);
    JoinedConcat([Token(kind, m)], tokens);
    assert Joined([Token(kind, m)]) == m;
    JoinStep(m, Joined(tokens), Untrimmed(rest));
  }

  /** Splitting the text after a visible prefix and trimming the remainder
      keeps every visible character. */
  lemma StepKeepsVisible(s: string, n: nat, m: string)
    requires n <= |s| && m == s[..n] && forall i :: 0 <= i < |m| ==> IsVisible(m[i])
    ensures Untrimmed(s) == m + Untrimmed(s[n..])
  {
    SplitAt(s, n);
    UntrimmedVisible(m);
    UntrimmedAppend(m, s[n..]);
  }

  lemma JoinStep(m: string, c: string, u: string)
    ensures (m + c) + u == m + (c + u)
  {
  }

  /** Every token is the non-empty, visible text its pattern matched. */
  lemma {:induction false} LexTokensAreVisible(patterns: seq<TokenPattern>, s: string)
    requires AllWellFormed(patterns)
    ensures forall t :: t in Lex(patterns, s).tokens ==>
      |t.text| > 0 && (forall i :: 0 <= i < |t.text| ==> IsVisible(t.text[i]))
    decreases |s|
  {
    if !IsBlank(s) {
      match FirstMatch(patterns, s)
      case None =>
      case Some(i) =>
        var n, m, next := ScanStep(patterns, s, i);
        LexTokensAreVisible(patterns, next);
        TokensStep(Lex(patterns, s).tokens, Token(patterns[i].kind, m), Lex(patterns, next).tokens);
    }
  }

  /** Prepending a non-empty visible token keeps every token non-empty and visible. */
  lemma TokensStep(tokens: seq<Token>, head: Token, tail: seq<Token>)
    requires tokens == [head] + tail
    requires |head.text| > 0 && forall i :: 0 <= i < |head.text| ==> IsVisible(head.text[i])
    requires forall t :: t in tail ==> |t.text| > 0 && (forall i :: 0 <= i < |t.text| ==> IsVisible(t.text[i]))
    ensures forall t :: t in tokens ==> |t.text| > 0 && (forall i :: 0 <= i < |t.text| ==> IsVisible(t.text[i]))
  {
  }

  /** Without a matching pattern for a non-blank text, the scan emits
      nothing and leaves the text as it is (for instance a leading space). */
  lemma LexStopsWithoutMatch(patterns: seq<TokenPattern>, s: string)
    requires FirstMatch(patterns, s).None? || IsBlank(s)
    ensures Lex(patterns, s) == Lexed([], s)
  {
  }

  /** The pattern at `k` is the first to match when it matches and none
      before it does. */
  lemma FirstMatchIs(patterns: seq<TokenPattern>, s: string, k: nat)
    requires k < |patterns| && MatchLength(patterns[k].regex, s) > 0
    requires forall i :: 0 <= i < k ==> MatchLength(patterns[i].regex, s) == 0
    ensures FirstMatch(patterns, s) == Some(k)
  {
  }

  /** The pattern cannot match a text that starts with `c`. */
  predicate CannotStart(re: Regex, c: char) {
    match re
    case Literal(t) => |t| > 0 && t[0] != c
    case Identifier => !IsAsciiLetter(c)
    case Digits => !IsDigit(c)
  }

  lemma NoMatchOnFirst(re: Regex, s: string)
    requires |s| > 0 && CannotStart(re, s[0])
    ensures MatchLength(re, s) == 0
  {
  }

  /** One step of a scan whose next token is known from the text's first
      character: no pattern before `k` can start there and the pattern at
      `k` matches the first `n` characters, which become the token. */
  lemma ScanFrom(patterns: seq<TokenPattern>, s: string, k: nat, n: nat, next: string)
    requires AllWellFormed(patterns) && k < |patterns| && |s| > 0
    requires forall i :: 0 <= i < k ==> MatchLength(patterns[i].regex, s) == 0
    requires 0 < n == MatchLength(patterns[k].regex, s)
    requires next == Trim(s[n..])
    ensures Lex(patterns, s).tokens == [Token(patterns[k].kind, s[..n])] + Lex(patterns, next).tokens
  {
    assert FirstMatch(patterns, s) == Some(k) by {
      FirstMatchIs(patterns, s, k);
    }
    NotBlankWhenMatched(patterns[k].regex, s);
    var m := s[..n];
    assert Trim(m) == m by {
      MatchedToken(patterns[k].regex, s, n, m);
      VisibleIsOwnTrim(m);
    }
    LexStep(patterns, s, k);
  }

  /** A text a well-formed pattern matches is not blank. */
  lemma NotBlankWhenMatched(re: Regex, s: string)
    requires WellFormed(re) && 0 < MatchLength(re, s)
    ensures !IsBlank(s)
  {
    MatchIsVisible(re, s);
    VisibleIsNotSpace(s[0]);
  }

  /** A name as the identifier pattern reads it: a letter, then letters,
      digits and underscores. */
  predicate IsName(s: string) {
    |s| > 0 && IsAsciiLetter(s[0]) && forall i :: 0 < i < |s| ==> IsWordChar(s[i])
  }

  /** The first character of a text, as a text of at most one character. */
  function FirstOf(s: string): (r: string)
    ensures |r| <= 1 && (s != [] ==> r == [s[0]]) && (s == [] ==> r == [])
  {
    if s == [] then [] else [s[0]]
  }

  /** The pattern cannot match a text that starts with the non-empty token
      text `t` followed by `after` (at most one character, none at the end of
      the text): it cannot start on `t`'s first character, or it is a literal
      no longer than `t` and `after` together that they do not start with. */
  predicate Skips(re: Regex, t: string, after: string) {
    && |t| > 0
    && (|| CannotStart(re, t[0])
        || (re.Literal? && (after == [] || |re.text| <= |t| + 1) && !StartsWith(t + after, re.text)))
  }

  /** A pattern that skips a token and the character after it does not
      match the text that goes on from there. */
  lemma SkipsMisses(re: Regex, t: string, s: string)
    requires Skips(re, t, FirstOf(s))
    ensures MatchLength(re, t + s) == 0
  {
    var w, after := t + s, FirstOf(s);
    assert w[0] == t[0];
    if CannotStart(re, t[0]) {
      NoMatchOnFirst(re, w);
    } else if s == [] {
      assert w == t + after;
    } else {
      var n := |re.text|;
      assert w[..|t| + 1] == t + after;
      assert w[..n] == (t + after)[..n];
    }
  }

  /** The pattern at `k` reads back exactly the token `t` at the start of a
      text in which `after` (at most one character, none at the end of the
      text) follows the token: it has the token's kind, every earlier pattern
      skips the token and `after`, and the match stops at the token's end. */
  predicate ReadBack(patterns: seq<TokenPattern>, k: nat, t: Token, after: string) {
    && k < |patterns| && patterns[k].kind == t.kind && |t.text| > 0
    && (forall i :: 0 <= i < k ==> Skips(patterns[i].regex, t.text, after))
    && match patterns[k].regex
       case Literal(lit) => lit == t.text
       case Identifier => IsName(t.text) && (after == [] || !IsWordChar(after[0]))
       case Digits => IsNumeric(t.text) && (after == [] || !IsDigit(after[0]))
  }

  /** A token read back is made of visible characters. */
  lemma ReadBackVisible(patterns: seq<TokenPattern>, k: nat, t: Token, after: string)
    requires AllWellFormed(patterns) && ReadBack(patterns, k, t, after)
    ensures forall j :: 0 <= j < |t.text| ==> IsVisible(t.text[j])
  {
  }

  /** One scan step on a token the table reads back: the token, then the
      scan of the trimmed remainder. */
  lemma ScanToken(patterns: seq<TokenPattern>, k: nat, t: Token, s: string)
    requires AllWellFormed(patterns) && ReadBack(patterns, k, t, FirstOf(s))
    ensures Lex(patterns, t.text + s).tokens == [t] + Lex(patterns, Trim(s)).tokens
  {
    var w := t.text + s;
    var n := |t.text|;
    assert w[..n] == t.text && w[n..] == s;
    assert MatchLength(patterns[k].regex, w) == n by {
      assert forall i :: 0 <= i < n ==> w[i] == t.text[i];
      assert s != [] ==> w[n] == s[0];
      match patterns[k].regex
      case Literal(lit) =>
      case Identifier =>
        IdentifierMatch(w);
      case Digits =>
        DigitsMatch(w);
    }
    forall i | 0 <= i < k
      ensures MatchLength(patterns[i].regex, w) == 0
    {
      SkipsMisses(patterns[i].regex, t.text, s);
    }
    ScanFrom(patterns, w, k, n, Trim(s));
    assert Token(patterns[k].kind, w[..n]) == t;
  }

  /** A text made only of spaces. */
  predicate AllSpaces(g: string) {
    forall j :: 0 <= j < |g| ==> g[j] == ' '
  }

  /** Tokens written out in order, each followed by its gap of spaces. */
  function Spelled(ts: seq<Token>, gaps: seq<string>): string
    requires |gaps| == |ts|
  {
    if ts == [] then [] else ts[0].text + gaps[0] + Spelled(ts[1..], gaps[1..])
  }

  /** No gaps between three, five, six or seven tokens. */
  const Gapless3: seq<string> := [[], [], []]
  const Gapless5: seq<string> := [[], [], [], [], []]
  const Gapless6: seq<string> := [[], [], [], [], [], []]
  const Gapless7: seq<string> := [[], [], [], [], [], [], []]

  /** Spelling one more token in front puts its text and gap in front. */
  lemma SpelledPrepend(t: Token, g: string, ts: seq<Token>, gaps: seq<string>)
    requires |gaps| == |ts|
    ensures Spelled([t] + ts, [g] + gaps) == t.text + (g + Spelled(ts, gaps))
  {
    assert ([t] + ts)[1..] == ts && ([g] + gaps)[1..] == gaps;
    var r := Spelled(ts, gaps);
    assert t.text + g + r == t.text + (g + r);
  }

  /** With an empty gap the token's text comes straight before the rest. */
  lemma SpelledPrependTight(t: Token, ts: seq<Token>, gaps: seq<string>)
    requires |gaps| == |ts|
    ensures Spelled([t] + ts, [[]] + gaps) == t.text + Spelled(ts, gaps)
  {
    SpelledPrepend(t, [], ts, gaps);
    assert [] + Spelled(ts, gaps) == Spelled(ts, gaps);
  }

  /** The character after the token at `i` in the spelled text. */
  function After(ts: seq<Token>, gaps: seq<string>, i: nat): (r: string)
    requires |gaps| == |ts| && i < |ts|
    ensures |r| <= 1
  {
    if gaps[i] != [] then [gaps[i][0]]
    else if i + 1 < |ts| && ts[i + 1].text != [] then [ts[i + 1].text[0]]
    else []
  }

  lemma AfterShift(ts: seq<Token>, gaps: seq<string>, i: nat)
    requires |gaps| == |ts| && i + 1 < |ts|
    ensures After(ts[1..], gaps[1..], i) == After(ts, gaps, i + 1)
  {
    assert gaps[1..][i] == gaps[i + 1];
    if i + 2 < |ts| {
      assert ts[1..][i + 1] == ts[i + 2];
    }
  }

  /** Every token is a non-empty run of visible characters. */
  predicate VisibleTexts(ts: seq<Token>) {
    forall i :: 0 <= i < |ts| ==> |ts[i].text| > 0 && forall j :: 0 <= j < |ts[i].text| ==> IsVisible(ts[i].text[j])
  }

  /** Spelled visible tokens start with the first token's first character
      and, when the last gap is empty, end with the last token's last one. */
  lemma {:induction false} SpelledEnds(ts: seq<Token>, gaps: seq<string>)
    requires |gaps| == |ts| && ts != [] && gaps[|ts| - 1] == [] && VisibleTexts(ts)
    ensures var w := Spelled(ts, gaps);
      && |w| > 0 && w[0] == ts[0].text[0]
      && w[|w| - 1] == ts[|ts| - 1].text[|ts[|ts| - 1].text| - 1]
    decreases |ts|
  {
    if |ts| > 1 {
      SpelledEnds(ts[1..], gaps[1..]);
    }
  }

  /** Leading spaces are dropped by the trim of a tight text. */
  lemma {:induction false} TrimAfterSpaces(g: string, r: string)
    requires AllSpaces(g) && Tight(r)
    ensures Trim(g + r) == r
    decreases |g|
  {
    if g == [] {
      assert g + r == r;
      TrimOfTight(r);
    } else {
      assert g + r == [g[0]] + (g[1..] + r);
      TrimAfterSpace(g[0], g[1..] + r);
      TrimAfterSpaces(g[1..], r);
    }
  }

  /** What LexSpelled asks of its tokens: the gaps are spaces, the last
      one empty, and the table reads every token back from its place. */
  predicate ReadableSpelling(patterns: seq<TokenPattern>, ts: seq<Token>, gaps: seq<string>, ks: seq<nat>) {
    && |gaps| == |ts| && |ks| == |ts|
    && (ts != [] ==> gaps[|ts| - 1] == [])
    && (forall i :: 0 <= i < |ts| ==> AllSpaces(gaps[i]))
    && (forall i :: 0 <= i < |ts| ==> ReadBack(patterns, ks[i], ts[i], After(ts, gaps, i)))
  }

  /** The tokens after the first are readable too. */
  lemma ReadableRest(patterns: seq<TokenPattern>, ts: seq<Token>, gaps: seq<string>, ks: seq<nat>)
    requires ReadableSpelling(patterns, ts, gaps, ks) && ts != []
    ensures ReadableSpelling(patterns, ts[1..], gaps[1..], ks[1..])
  {
    forall i | 0 <= i < |ts| - 1
      ensures AllSpaces(gaps[1..][i]) && ReadBack(patterns, ks[1..][i], ts[1..][i], After(ts[1..], gaps[1..], i))
    {
      assert gaps[1..][i] == gaps[i + 1] && ts[1..][i] == ts[i + 1] && ks[1..][i] == ks[i + 1];
      AfterShift(ts, gaps, i);
    }
  }

  /** The tokens after the first of a readable spelling are visible. */
  lemma RestVisible(patterns: seq<TokenPattern>, ts: seq<Token>, gaps: seq<string>, ks: seq<nat>)
    requires AllWellFormed(patterns) && ReadableSpelling(patterns, ts, gaps, ks) && ts != []
    ensures VisibleTexts(ts[1..])
  {
    forall i | 0 <= i < |ts| - 1
      ensures |ts[1..][i].text| > 0 && forall j :: 0 <= j < |ts[1..][i].text| ==> IsVisible(ts[1..][i].text[j])
    {
      ReadBackVisible(patterns, ks[i + 1], ts[i + 1], After(ts, gaps, i + 1));
    }
  }

  /** The first step of the scan of a readable spelling reads the first token
      and leaves exactly the spelling of the others. */
  lemma SpelledStep(patterns: seq<TokenPattern>, ts: seq<Token>, gaps: seq<string>, ks: seq<nat>)
    requires AllWellFormed(patterns) && ReadableSpelling(patterns, ts, gaps, ks) && ts != []
    ensures Lex(patterns, Spelled(ts, gaps)).tokens == [ts[0]] + Lex(patterns, Spelled(ts[1..], gaps[1..])).tokens
  {
    var rest, restGaps := ts[1..], gaps[1..];
    var r := Spelled(rest, restGaps);
    var s := gaps[0] + r;
    if rest != [] {
      RestVisible(patterns, ts, gaps, ks);
      SpelledEnds(rest, restGaps);
    }
    assert FirstOf(s) == After(ts, gaps, 0);
    assert Spelled(ts, gaps) == ts[0].text + s;
    ScanToken(patterns, ks[0], ts[0], s);
    TrimAfterSpaces(gaps[0], r);
  }

  /** Spelling tokens out and lexing the text gives the tokens back, when
      the table reads each token back from its place (separated from the
      next one by its gap of spaces) and nothing follows the last one. */
  lemma {:induction false} LexSpelled(patterns: seq<TokenPattern>, ts: seq<Token>, gaps: seq<string>, ks: seq<nat>)
    requires AllWellFormed(patterns) && ReadableSpelling(patterns, ts, gaps, ks)
    ensures Lex(patterns, Spelled(ts, gaps)).tokens == ts
    decreases |ts|
  {
    if ts != [] {
      SpelledStep(patterns, ts, gaps, ks);
      ReadableRest(patterns, ts, gaps, ks);
      LexSpelled(patterns, ts[1..], gaps[1..], ks[1..]);
    }
  }

  /** The query table reads a name back as a variable, when no word
      character follows it. */
  lemma QueryNameReadBack(a: string, after: string)
    requires IsName(a) && (after == [] || !IsWordChar(after[0]))
    ensures ReadBack(QueryTable, 6, Token(Variable, a), after)
  {
    assert forall i :: 0 <= i < 6 ==> QueryTable[i].regex.Literal? && |QueryTable[i].regex.text| == 1;
  }

  /** The query table reads a digit string back as a number, when no digit
      follows it. */
  lemma QueryNumberReadBack(n: string, after: string)
    requires IsNumeric(n) && (after == [] || !IsDigit(after[0]))
    ensures ReadBack(QueryTable, 7, Token(Number, n), after)
  {
  }

  /** The query table reads the literal of its pattern `k` back, for the
      symbols `$`, `.`, `(`, `)` and `>=`. */
  lemma QuerySymbolReadBack(k: nat, after: string)
    requires k == 0 || k == 2 || k == 8 || k == 9 || k == 17
    ensures QueryTable[k].regex.Literal?
    ensures ReadBack(QueryTable, k, Token(QueryTable[k].kind, QueryTable[k].regex.text), after)
  {
  }

  /** The criteria table reads a name back as a variable, when no word
      character follows it. */
  lemma CriteriaNameReadBack(a: string, after: string)
    requires IsName(a) && (after == [] || !IsWordChar(after[0]))
    ensures ReadBack(CriteriaTable, 0, Token(Variable, a), after)
  {
  }

  /** The criteria table reads a digit string back as a number, when no
      digit follows it. */
  lemma CriteriaNumberReadBack(n: string, after: string)
    requires IsNumeric(n) && (after == [] || !IsDigit(after[0]))
    ensures ReadBack(CriteriaTable, 1, Token(Number, n), after)
  {
  }

  /** The criteria table reads the literal of each of its patterns `k` from
      2 to 9 back; `>` and `<` come after `>=` and `<=`, so they are read
      back only where no `=` follows them. */
  lemma CriteriaSymbolReadBack(k: nat, after: string)
    requires 2 <= k <= 9 && |after| <= 1
    requires (k == 5 || k == 7) ==> after == [] || after[0] != '='
    ensures CriteriaTable[k].regex.Literal?
    ensures ReadBack(CriteriaTable, k, Token(CriteriaTable[k].kind, CriteriaTable[k].regex.text), after)
  {
    var t := CriteriaTable[k].regex.text;
    if k == 5 || k == 7 {
      var longer := CriteriaTable[k - 1].regex.text;
      assert longer == t + "=";
      assert !StartsWith(t + after, longer) by {
        if after != [] {
          assert (t + after)[1] == after[0];
        }
      }
      assert Skips(CriteriaTable[k - 1].regex, t, after);
    }
  }

  /** Spelling two token lists one after the other spells their
      concatenation. */
  lemma {:induction false} SpelledJoin(ts1: seq<Token>, g1: seq<string>, ts2: seq<Token>, g2: seq<string>)
    requires |g1| == |ts1| && |g2| == |ts2|
    ensures Spelled(ts1 + ts2, g1 + g2) == Spelled(ts1, g1) + Spelled(ts2, g2)
    decreases |ts1|
  {
    if ts1 == [] {
      assert ts1 + ts2 == ts2 && g1 + g2 == g2;
    } else {
      assert (ts1 + ts2)[0] == ts1[0] && (ts1 + ts2)[1..] == ts1[1..] + ts2;
      assert (g1 + g2)[0] == g1[0] && (g1 + g2)[1..] == g1[1..] + g2;
      SpelledJoin(ts1[1..], g1[1..], ts2, g2);
    }
  }

  /** Three tokens spelled without gaps are their texts one after the other. */
  lemma SpelledThree(t0: Token, t1: Token, t2: Token)
    ensures Spelled([t0, t1, t2], Gapless3) == t0.text + (t1.text + t2.text)
  {
    var s2 := [t2];
    var s1 := [t1] + s2;
    assert [t0, t1, t2] == [t0] + s1;
    var e: string := [];
    assert Gapless3 == [e] + ([e] + [e]);
    SpelledPrependTight(t2, [], []);
    assert t2.text + [] == t2.text;
    SpelledPrependTight(t1, s2, [e]);
    SpelledPrependTight(t0, s1, [e] + [e]);
  }

  /** A readable spelling of at least one token is tokenized back to its
      tokens. */
  lemma TokenizedSpelled(patterns: seq<TokenPattern>, ts: seq<Token>, gaps: seq<string>, ks: seq<nat>)
    requires AllWellFormed(patterns) && ReadableSpelling(patterns, ts, gaps, ks) && ts != []
    ensures Tokenized(patterns, Spelled(ts, gaps)) == Ok(ts)
  {
    LexSpelled(patterns, ts, gaps, ks);
    ReadBackVisible(patterns, ks[0], ts[0], After(ts, gaps, 0));
    assert Spelled(ts, gaps) == ts[0].text + gaps[0] + Spelled(ts[1..], gaps[1..]);
    VisibleIsNotSpace(ts[0].text[0]);
  }

  /** On `>=` the query table picks its `>=` pattern (position 17), which
      consumes both characters, although the `>` pattern after it (position
      18) would match one: `>=` is a single GTET token. */
  lemma GreaterOrEqualWinsInQueryTable()
    ensures FirstMatch(QueryTable, ">=") == Some(17)
    ensures MatchLength(QueryTable[17].regex, ">=") == 2 && QueryTable[17].kind == Gtet
    ensures MatchLength(QueryTable[18].regex, ">=") == 1 && QueryTable[18].kind == Gt
  {
    forall i | 0 <= i < 17
      ensures MatchLength(QueryTable[i].regex, ">=") == 0
    {
      assert CannotStart(QueryTable[i].regex, '>');
      NoMatchOnFirst(QueryTable[i].regex, ">=");
    }
    FirstMatchIs(QueryTable, ">=", 17);
  }

  /** Likewise `=>` is a THEN token and not `=` followed by `>`. */
  lemma ThenWinsInQueryTable()
    ensures FirstMatch(QueryTable, "=>") == Some(14)
    ensures MatchLength(QueryTable[14].regex, "=>") == 2 && QueryTable[14].kind == Then
    ensures MatchLength(QueryTable[15].regex, "=>") == 1 && QueryTable[15].kind == Eq
  {
    forall i | 0 <= i < 14
      ensures MatchLength(QueryTable[i].regex, "=>") == 0
    {
      assert CannotStart(QueryTable[i].regex, '=');
      NoMatchOnFirst(QueryTable[i].regex, "=>");
    }
    FirstMatchIs(QueryTable, "=>", 14);
  }
}
