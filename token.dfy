/** Tokens of the query language and the patterns that recognise them.
    Each pattern of the engine is a regular expression anchored at the start
    of the remaining text; here each one is a hand-written recogniser that
    returns the length of the (greedy, hence longest) prefix it matches. */
module Tokens {
  import opened Strings

  // Token kinds, as numbered by the engine.
  const DollarSymbol: int := 1
  const AtSymbol: int := 2
  const DotSymbol: int := 3
  const Quote: int := 4
  const Colon: int := 5
  const Variable: int := 6
  const Number: int := 7
  const OpenBracket: int := 8
  const CloseBracket: int := 9
  const OpenSqBracket: int := 10
  const CloseSqBracket: int := 11
  const OpenCurlyBrace: int := 12
  const CloseCurlyBrace: int := 13
  const Eq: int := 14
  const Neq: int := 15
  const Ltet: int := 16
  const Lt: int := 17
  const Gtet: int := 18
  const Gt: int := 19
  const And: int := 20
  const Or: int := 21
  const Then: int := 22
  /** The query table uses a `?` kind that the numbered kinds lack; it gets
      the first free code. */
  const QuestionMark: int := 23

  /** Every kind the lexer can emit, in code order. */
  const Kinds: seq<int> := [DollarSymbol, AtSymbol, DotSymbol, Quote, Colon, Variable, Number,
    OpenBracket, CloseBracket, OpenSqBracket, CloseSqBracket, OpenCurlyBrace, CloseCurlyBrace,
    Eq, Neq, Ltet, Lt, Gtet, Gt, And, Or, Then, QuestionMark]

  /** The kinds are numbered 1, 2, 3, ... in order, so no two share a code
      and a token's kind names it unambiguously. */
  lemma KindCodes()
    ensures forall i :: 0 <= i < |Kinds| ==> Kinds[i] == i + 1
    ensures forall i, j :: 0 <= i < j < |Kinds| ==> Kinds[i] != Kinds[j]
  {
  }

  /** An immutable token: its kind code and its text. */
  datatype Token = Token(kind: int, text: string)

  /** The texts of a token list, concatenated in order. */
  function Joined(tokens: seq<Token>): string {
    if tokens == [] then [] else Joined(tokens[..|tokens| - 1]) + tokens[|tokens| - 1].text
  }

  /** Joining distributes over concatenation of token lists. */
  lemma {:induction false} JoinedConcat(a: seq<Token>, b: seq<Token>)
    ensures Joined(a + b) == Joined(a) + Joined(b)
    decreases |b|
  {
    if b == [] {
      assert a + b == a;
    } else {
      var init, last := b[..|b| - 1], b[|b| - 1];
      assert (a + b)[..|a + b| - 1] == a + init;
      assert (a + b)[|a + b| - 1] == last;
      JoinedConcat(a, init);
      assert Joined(b) == Joined(init) + last.text;
    }
  }

  /** The three shapes of pattern the engine uses: an escaped literal,
      `[a-zA-Z][a-zA-Z0-9_]*` and `\d+`. */
  datatype Regex = Literal(text: string) | Identifier | Digits

  /** An immutable (pattern, kind) pair. */
  datatype TokenPattern = TokenPattern(regex: Regex, kind: int)

  // The pattern catalogue.
  const DollarPattern: Regex := Literal("$")
  const AtPattern: Regex := Literal("@")
  const DotPattern: Regex := Literal(".")
  const QuestionMarkPattern: Regex := Literal("?")
  const QuotePattern: Regex := Literal("\"")
  const ColonPattern: Regex := Literal(":")
  const VariablePattern: Regex := Identifier
  const NumberPattern: Regex := Digits
  const OpenBracketPattern: Regex := Literal("(")
  const CloseBracketPattern: Regex := Literal(")")
  const OpenSqBracketPattern: Regex := Literal("[")
  const CloseSqBracketPattern: Regex := Literal("]")
  const OpenCurlyBracePattern: Regex := Literal("{")
  const CloseCurlyBracePattern: Regex := Literal("}")
  const EqPattern: Regex := Literal("=")
  const NeqPattern: Regex := Literal("!=")
  const LtetPattern: Regex := Literal("<=")
  const LtPattern: Regex := Literal("<")
  const GtetPattern: Regex := Literal(">=")
  const GtPattern: Regex := Literal(">")
  const AndPattern: Regex := Literal("&&")
  const OrPattern: Regex := Literal("||")
  const ThenPattern: Regex := Literal("=>")

  predicate IsAsciiLetter(c: char) { 'a' <= c <= 'z' || 'A' <= c <= 'Z' }

  predicate IsWordChar(c: char) { IsAsciiLetter(c) || IsDigit(c) || c == '_' }

  /** The length of the longest prefix made of word characters. */
  function WordRun(s: string): (n: nat)
    ensures n <= |s|
    ensures forall i :: 0 <= i < n ==> IsWordChar(s[i])
    ensures n < |s| ==> !IsWordChar(s[n])
  {
    if s == [] || !IsWordChar(s[0]) then 0 else 1 + WordRun(s[1..])
  }

  /** The length of the longest prefix made of digits. */
  function DigitRun(s: string): (n: nat)
    ensures n <= |s|
    ensures forall i :: 0 <= i < n ==> IsDigit(s[i])
    ensures n < |s| ==> !IsDigit(s[n])
  {
    if s == [] || !IsDigit(s[0]) then 0 else 1 + DigitRun(s[1..])
  }

  /** How many characters at the start of `s` the pattern matches; 0 when it
      does not match (no pattern of the engine matches the empty string). */
  function MatchLength(re: Regex, s: string): (n: nat)
    ensures n <= |s|
  {
    match re
    case Literal(t) => if |t| > 0 && StartsWith(s, t) then |t| else 0
    case Identifier => if |s| > 0 && IsAsciiLetter(s[0]) then 1 + WordRun(s[1..]) else 0
    case Digits => DigitRun(s)
  }

  /** An escaped literal matches exactly its own non-empty text. */
  lemma LiteralMatch(t: string, s: string)
    ensures MatchLength(Literal(t), s) > 0 <==> |t| > 0 && StartsWith(s, t)
    ensures MatchLength(Literal(t), s) > 0 ==> s[..MatchLength(Literal(t), s)] == t
  {
  }

  /** `\d+` matches the longest run of one or more digits. */
  lemma DigitsMatch(s: string)
    ensures MatchLength(Digits, s) > 0 <==> |s| > 0 && IsDigit(s[0])
    ensures IsNumeric(s[..MatchLength(Digits, s)]) || MatchLength(Digits, s) == 0
    ensures MatchLength(Digits, s) < |s| ==> !IsDigit(s[MatchLength(Digits, s)])
  {
    var n := MatchLength(Digits, s);
    assert forall i :: 0 <= i < n ==> s[..n][i] == s[i];
  }

  /** `[a-zA-Z][a-zA-Z0-9_]*` matches a letter followed by the longest run of
      letters, digits and underscores. */
  lemma IdentifierMatch(s: string)
    ensures MatchLength(Identifier, s) > 0 <==> |s| > 0 && IsAsciiLetter(s[0])
    ensures forall i :: 0 < i < MatchLength(Identifier, s) ==> IsWordChar(s[i])
    ensures 0 < MatchLength(Identifier, s) < |s| ==> !IsWordChar(s[MatchLength(Identifier, s)])
  {
    if |s| > 0 && IsAsciiLetter(s[0]) {
      var k := WordRun(s[1..]);
      assert forall i :: 0 < i <= k ==> s[i] == s[1..][i - 1];
    }
  }

  /** A character a pattern may consume: printable ASCII other than `#`. */
  predicate IsVisible(c: char) {
    '!' <= c <= '~' && c != '#'
  }

  /** Visible characters are neither trimmed nor Java whitespace. */
  lemma VisibleIsNotSpace(c: char)
    requires IsVisible(c)
    ensures !IsTrimmable(c) && !IsWhitespace(c)
  {
  }

  /** Literal patterns are made of visible characters. */
  predicate WellFormed(re: Regex) {
    re.Literal? ==> forall i :: 0 <= i < |re.text| ==> IsVisible(re.text[i])
  }

  /** A well-formed pattern never matches whitespace or `#`: everything it
      consumes is visible. */
  lemma MatchIsVisible(re: Regex, s: string)
    requires WellFormed(re)
    ensures forall i :: 0 <= i < MatchLength(re, s) ==> IsVisible(s[i])
  {
    var n := MatchLength(re, s);
    match re
    case Literal(t) =>
      if n > 0 {
        assert s[..|t|] == t;
        assert forall i :: 0 <= i < n ==> s[i] == t[i];
      }
    case Identifier =>
      IdentifierMatch(s);
    case Digits =>
      DigitsMatch(s);
      assert forall i :: 0 <= i < n ==> s[..n][i] == s[i];
  }

  /** `=` is a proper prefix of `=>`, `<` of `<=` and `>` of `>=`: on those
      inputs both patterns match, and only the table order decides. */
  lemma PrefixOperatorsOverlap()
    ensures MatchLength(EqPattern, "=>") == 1 && MatchLength(ThenPattern, "=>") == 2
    ensures MatchLength(LtPattern, "<=") == 1 && MatchLength(LtetPattern, "<=") == 2
    ensures MatchLength(GtPattern, ">=") == 1 && MatchLength(GtetPattern, ">=") == 2
  {
  }
}
