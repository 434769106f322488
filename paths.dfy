/** The grammar of one path segment: `name`, `name[index]`,
    `name[start:end:step]`, `name(criterion)` and `name()`. The segment is
    taken apart with first-occurrence searches for the bracket characters. */
module Paths {
  import opened Results
  import opened Strings
  import opened Tokens

  /** The marker for "no index". */
  const NotFound: int := -1

  /** A segment is a function call when it is not blank and ends with "()". */
  predicate IsFunction(path: string)
    ensures IsFunction(path) ==> |path| >= 2 && path[|path| - 2] == '(' && path[|path| - 1] == ')'
  {
    !IsBlank(path) && EndsWith(path, "()")
  }

  /** The text between the first `[` and the first `]`, when the `[` is not
      the first character and at least one character lies between them;
      "" otherwise. */
  function FindRawIndex(path: string): (r: string)
    ensures r != [] ==> exists o :: IndexShape(path, o, r)
  {
    if IsBlank(path) then []
    else
      var open := IndexOf(path, '[');
      var close := IndexOf(path, ']');
      if open > 0 && close > open + 1 then
        assert IndexShape(path, open, path[open + 1..close]);
        path[open + 1..close]
      else []
  }

  /** `r` sits at `o + 1` between the first `[` (at `o > 0`) and the first
      `]` of the path. */
  predicate IndexShape(path: string, o: int, r: string) {
    && 0 < o && o + |r| + 1 < |path|
    && path[o] == '[' && path[o + 1 + |r|] == ']'
    && path[o + 1..o + 1 + |r|] == r
    && (forall i :: 0 <= i < o ==> path[i] != '[')
    && (forall i :: 0 <= i < o + 1 + |r| ==> path[i] != ']')
  }

  /** Conversely, a non-empty index between the first `[` and the first `]`
      is found. */
  lemma RawIndexFound(path: string, o: int, r: string)
    requires r != [] && IndexShape(path, o, r)
    ensures FindRawIndex(path) == r
  {
    assert path[o] != ' ';
    assert !IsBlank(path);
  }

  /** A raw index is a slice when it is not blank and contains a colon. */
  predicate IsSlice(rawIndex: string)
    ensures IsSlice(rawIndex) ==> !IsBlank(rawIndex) && !IsNumeric(rawIndex)
  {
    !IsBlank(rawIndex) && ':' in rawIndex
  }

  /** A raw index that is neither blank nor a slice is parsed as an int;
      otherwise there is no index. A parse failure is a NumberFormat error. */
  function FindIndex(rawIndex: string): (r: Result<int>)
    ensures IsBlank(rawIndex) || IsSlice(rawIndex) ==> r == Ok(NotFound)
    ensures !IsBlank(rawIndex) && !IsSlice(rawIndex) ==> r == ParseInt(rawIndex)
  {
    if !IsBlank(rawIndex) && !IsSlice(rawIndex) then ParseInt(rawIndex) else Ok(NotFound)
  }

  /** The written form of any int that is not -1 is found as that index;
      "-1" itself reads as "no index". */
  lemma IndexRoundTrip(n: int)
    requires IsInt32(n)
    ensures FindIndex(IntToString(n)) == Ok(n)
  {
    ParseIntRoundTrip(n);
    var s := IntToString(n);
    assert s[|s| - 1] != ' ' && s[|s| - 1] != ':';
    NoColonInNumber(n);
  }

  lemma NoColonInNumber(n: int)
    requires IsInt32(n)
    ensures ':' !in IntToString(n)
    ensures !IsBlank(IntToString(n))
  {
    var s := IntToString(n);
    ParseIntRoundTrip(n);
    assert forall i :: 0 <= i < |s| ==> IsDigit(s[i]) || s[i] == '-';
  }

  /** The property name: what precedes the first `[` if that is not the
      first character, else what precedes the first `(` under the same
      condition, else the whole path trimmed. */
  function FindPropertyName(path: string): (r: string)
    ensures IndexOf(path, '[') > 0 ==> r == path[..IndexOf(path, '[')]
    ensures IndexOf(path, '[') <= 0 && IndexOf(path, '(') > 0 ==> r == path[..IndexOf(path, '(')]
    ensures IndexOf(path, '[') <= 0 && IndexOf(path, '(') <= 0 ==> r == Trim(path)
  {
    var open := IndexOf(path, '[');
    if open > 0 then path[..open]
    else
      var openCriterion := IndexOf(path, '(');
      if openCriterion > 0 then path[..openCriterion] else Trim(path)
  }

  /** The criterion: the trimmed text between the first `(` and the first
      `)`, when the `(` is not the first character and the `)` follows it;
      "" otherwise. */
  function FindCriterion(query: string): string {
    var open := IndexOf(query, '(');
    var close := IndexOf(query, ')');
    if open > 0 && close > open then Trim(query[open + 1..close]) else []
  }

  /** A criterion is found only between a `(` that is not the first
      character and a later `)`; it is shorter than the query by at least
      the name's first character and the two parentheses, and it has no
      surrounding whitespace. */
  lemma FoundCriterion(query: string)
    ensures var r := FindCriterion(query);
      && (r != [] ==> 0 < IndexOf(query, '(') < IndexOf(query, ')'))
      && (r != [] ==> |r| + 3 <= |query|)
      && (r != [] ==> !IsTrimmable(r[0]) && !IsTrimmable(r[|r| - 1]))
  {
    var open := IndexOf(query, '(');
    var close := IndexOf(query, ')');
    if open > 0 && close > open {
      TrimIsInfix(query[open + 1..close]);
    }
  }

  /** Where `c` does not occur in `a`, its first occurrence in `a + [c] + b`
      is right after `a`. */
  lemma FirstOccurrence(a: string, c: char, b: string)
    requires c !in a
    ensures IndexOf(a + [c] + b, c) == |a|
  {
    var s := a + [c] + b;
    assert s[|a|] == c;
    assert forall i :: 0 <= i < |a| ==> s[i] == a[i];
  }

  /** `name[index]` comes apart into its name and its raw index, and has no
      criterion and is no function call. */
  lemma IndexedSegment(name: string, index: string)
    requires name != [] && index != []
    requires '[' !in name && ']' !in name && '(' !in name && ')' !in name
    requires '[' !in index && ']' !in index && ')' !in index
    ensures FindPropertyName(name + "[" + index + "]") == name
    ensures FindRawIndex(name + "[" + index + "]") == index
  {
    var path := name + "[" + index + "]";
    assert path == name + ['['] + (index + "]");
    FirstOccurrence(name, '[', index + "]");
    assert path == (name + "[" + index) + [']'] + [];
    assert ']' !in name + "[" + index;
    FirstOccurrence(name + "[" + index, ']', []);
    assert path[|name| + 1..|name| + 1 + |index|] == index;
  }

  /** `name(criterion)` comes apart into its name and its trimmed criterion. */
  lemma CriterionSegment(name: string, criterion: string)
    requires name != []
    requires '[' !in name && '(' !in name && ')' !in name
    requires '[' !in criterion && '(' !in criterion && ')' !in criterion
    ensures FindPropertyName(name + "(" + criterion + ")") == name
    ensures FindCriterion(name + "(" + criterion + ")") == Trim(criterion)
    ensures FindRawIndex(name + "(" + criterion + ")") == []
  {
    var path := name + "(" + criterion + ")";
    assert '[' !in path;
    assert path == name + ['('] + (criterion + ")");
    FirstOccurrence(name, '(', criterion + ")");
    assert path == (name + "(" + criterion) + [')'] + [];
    assert ')' !in name + "(" + criterion;
    FirstOccurrence(name + "(" + criterion, ')', []);
    assert path[|name| + 1..|name| + 1 + |criterion|] == criterion;
  }

  /** `name()` is a function call whose criterion is empty. */
  lemma FunctionSegment(name: string)
    requires name != [] && !IsBlank(name)
    requires '[' !in name && '(' !in name && ')' !in name
    ensures IsFunction(name + "()")
    ensures FindCriterion(name + "()") == []
    ensures FindPropertyName(name + "()") == name
  {
    CriterionSegment(name, []);
    var path := name + "()";
    assert name + "(" + [] + ")" == path;
    assert path[|path| - 2..] == "()";
    var k :| 0 <= k < |name| && !IsWhitespace(name[k]);
    assert path[k] == name[k];
  }

  /** A name with no brackets or parentheses and nothing trimmable at its
      ends is a plain property: no function, no index, no criterion. */
  lemma BareName(name: string)
    requires name != [] && !IsWhitespace(name[0])
    requires !IsTrimmable(name[0]) && !IsTrimmable(name[|name| - 1])
    requires '[' !in name && ']' !in name && '(' !in name && ')' !in name
    ensures !IsBlank(name) && !IsFunction(name)
    ensures FindPropertyName(name) == name && FindRawIndex(name) == [] && FindCriterion(name) == []
  {
    assert TrimStart(name) == name;
    assert TrimEnd(name) == name;
    assert name[|name| - 1] != ')';
  }

  /** "name[]" carries no index: the raw index is empty, hence neither a
      number nor a slice. */
  lemma EmptyBrackets()
    ensures FindRawIndex("name[]") == []
    ensures FindIndex(FindRawIndex("name[]")) == Ok(NotFound)
    ensures !IsSlice(FindRawIndex("name[]"))
  {
    assert "name[]" == "name" + ['['] + "]";
    FirstOccurrence("name", '[', "]");
    assert "name[]" == "name[" + [']'] + [];
    FirstOccurrence("name[", ']', []);
  }

  // The criterion grammar: letters, a comparison operator, letters or
  // digits; several such comparisons joined by `&&` or `||`; no spaces.

  predicate IsAlnum(c: char) { IsAsciiLetter(c) || IsDigit(c) }

  predicate IsLetters(s: string) {
    |s| > 0 && forall i :: 0 <= i < |s| ==> IsAsciiLetter(s[i])
  }

  predicate IsAlnums(s: string) {
    |s| > 0 && forall i :: 0 <= i < |s| ==> IsAlnum(s[i])
  }

  predicate IsComparisonOperator(o: string) {
    o == "=" || o == "!=" || o == "<" || o == "<=" || o == ">" || o == ">="
  }

  predicate IsLogicalOperator(o: string) {
    o == "&&" || o == "||"
  }

  /** One comparison, as the regular expression describes it: some split into
      letters, an operator and letters-or-digits. */
  ghost predicate IsComparison(s: string) {
    exists i, j :: 0 < i < j < |s| && IsLetters(s[..i]) && IsComparisonOperator(s[i..j]) && IsAlnums(s[j..])
  }

  /** The language of the criterion pattern: a comparison, or a comparison,
      a logical operator and (recursively) a criterion. */
  ghost predicate InCriterionLanguage(s: string)
    decreases |s|
  {
    || IsComparison(s)
    || exists k :: 0 < k && k + 2 < |s| && IsComparison(s[..k]) && IsLogicalOperator(s[k..k + 2])
         && InCriterionLanguage(s[k + 2..])
  }

  function LetterRun(s: string): (n: nat)
    ensures n <= |s|
    ensures forall i :: 0 <= i < n ==> IsAsciiLetter(s[i])
    ensures n < |s| ==> !IsAsciiLetter(s[n])
  {
    if s == [] || !IsAsciiLetter(s[0]) then 0 else 1 + LetterRun(s[1..])
  }

  function AlnumRun(s: string): (n: nat)
    ensures n <= |s|
    ensures forall i :: 0 <= i < n ==> IsAlnum(s[i])
    ensures n < |s| ==> !IsAlnum(s[n])
  {
    if s == [] || !IsAlnum(s[0]) then 0 else 1 + AlnumRun(s[1..])
  }

  /** The length of the comparison operator at the start of `s`, 0 if none;
      the two-character operators are tried first. */
  function OperatorLength(s: string): (n: nat)
    ensures n <= |s|
    ensures n > 0 ==> IsComparisonOperator(s[..n])
  {
    if |s| >= 2 && (s[..2] == "!=" || s[..2] == "<=" || s[..2] == ">=") then 2
    else if |s| >= 1 && (s[0] == '=' || s[0] == '<' || s[0] == '>') then
      assert s[..1] == [s[0]];
      1
    else 0
  }

  /** The length of the comparison at the start of `s`, 0 if there is none. */
  function ComparisonLength(s: string): (n: nat)
    ensures n <= |s|
    ensures n > 0 ==> n >= 3
  {
    var a := LetterRun(s);
    if a == 0 then 0
    else
      var b := OperatorLength(s[a..]);
      if b == 0 then 0
      else
        var c := AlnumRun(s[a + b..]);
        if c == 0 then 0 else a + b + c
  }

  /** The deterministic recogniser for the criterion pattern, matched against
      the whole string. */
  predicate IsCriterion(s: string)
    decreases |s|
  {
    var n := ComparisonLength(s);
    n > 0 && (n == |s| || (n + 2 < |s| && IsLogicalOperator(s[n..n + 2]) && IsCriterion(s[n + 2..])))
  }

  /** What the recogniser takes as a comparison is one. */
  lemma ComparisonLengthSound(s: string)
    requires ComparisonLength(s) > 0
    ensures IsComparison(s[..ComparisonLength(s)])
  {
    var n := ComparisonLength(s);
    var a := LetterRun(s);
    var b := OperatorLength(s[a..]);
    var t := s[..n];
    assert t[..a] == s[..a];
    assert t[a..a + b] == s[a..][..b];
    assert t[a + b..] == s[a + b..][..n - a - b];
    assert IsLetters(t[..a]) && IsComparisonOperator(t[a..a + b]) && IsAlnums(t[a + b..]);
  }

  /** A comparison followed by the end or by `&` or `|` is exactly the one the
      recogniser takes. */
  lemma ComparisonLengthComplete(s: string, k: nat)
    requires k <= |s| && IsComparison(s[..k])
    requires k < |s| ==> s[k] == '&' || s[k] == '|'
    ensures ComparisonLength(s) == k
  {
    var t := s[..k];
    var i, j :| 0 < i < j < |t| && IsLetters(t[..i]) && IsComparisonOperator(t[i..j]) && IsAlnums(t[j..]);
    assert t[..i] == s[..i] && t[i..j] == s[i..j] && t[j..] == s[j..k];
    ComparisonAt(s, k, i, j);
  }

  /** The recogniser's reading of letters `s[..i]`, operator `s[i..j]` and
      value `s[j..k]`, followed by the end or a logical operator. */
  lemma ComparisonAt(s: string, k: nat, i: nat, j: nat)
    requires 0 < i < j < k <= |s|
    requires IsLetters(s[..i]) && IsComparisonOperator(s[i..j]) && IsAlnums(s[j..k])
    requires k < |s| ==> s[k] == '&' || s[k] == '|'
    ensures ComparisonLength(s) == k
  {
    ThreeParts(s, i, j, k);
    LetterRunIs(s, i);
    OperatorLengthIs(s[i..], j - i, s[j]);
    AlnumRunIs(s[j..], k - j, s[j..k]);
  }

  lemma ThreeParts(s: string, i: nat, j: nat, k: nat)
    requires 0 < i < j < k <= |s|
    ensures s[i] == s[i..j][0] && s[j] == s[j..k][0]
    ensures forall p :: 0 <= p < i ==> s[p] == s[..i][p]
    ensures s[i..][..j - i] == s[i..j] && s[j..][..k - j] == s[j..k]
  {
  }

  lemma LetterRunIs(s: string, i: nat)
    requires i < |s| && !IsAsciiLetter(s[i])
    requires forall p :: 0 <= p < i ==> IsAsciiLetter(s[p])
    ensures LetterRun(s) == i
  {
  }

  lemma OperatorLengthIs(s: string, m: nat, next: char)
    requires m < |s| && IsComparisonOperator(s[..m]) && s[m] == next && IsAlnum(next)
    ensures OperatorLength(s) == m
  {
    assert s[..m][0] == s[0];
    if m == 1 {
      assert s[..2][1] == next;
    }
  }

  lemma AlnumRunIs(s: string, m: nat, v: string)
    requires m <= |s| && v == s[..m] && IsAlnums(v)
    requires m < |s| ==> s[m] == '&' || s[m] == '|'
    ensures AlnumRun(s) == m
  {
    assert forall p :: 0 <= p < m ==> s[p] == v[p];
  }

  /** The recogniser accepts exactly the language of the criterion pattern. */
  lemma CriterionRecogniserIsExact(s: string)
    ensures IsCriterion(s) <==> InCriterionLanguage(s)
  {
    if IsCriterion(s) {
      RecognisedIsInLanguage(s);
    }
    if InCriterionLanguage(s) {
      LanguageIsRecognised(s);
    }
  }

  lemma {:induction false} RecognisedIsInLanguage(s: string)
    requires IsCriterion(s)
    ensures InCriterionLanguage(s)
    decreases |s|
  {
    var n := ComparisonLength(s);
    ComparisonLengthSound(s);
    if n == |s| {
      assert s[..n] == s;
    } else {
      RecognisedIsInLanguage(s[n + 2..]);
      assert IsComparison(s[..n]) && IsLogicalOperator(s[n..n + 2]) && InCriterionLanguage(s[n + 2..]);
    }
  }

  lemma {:induction false} LanguageIsRecognised(s: string)
    requires InCriterionLanguage(s)
    ensures IsCriterion(s)
    decreases |s|
  {
    if IsComparison(s) {
      assert s[..|s|] == s;
      ComparisonLengthComplete(s, |s|);
    } else {
      var k :| 0 < k && k + 2 < |s| && IsComparison(s[..k]) && IsLogicalOperator(s[k..k + 2])
        && InCriterionLanguage(s[k + 2..]);
      assert s[k] == s[k..k + 2][0];
      ComparisonLengthComplete(s, k);
      LanguageIsRecognised(s[k + 2..]);
    }
  }

  /** The empty criterion is not one, so a segment without a criterion is
      never filtered. */
  lemma EmptyIsNoCriterion()
    ensures !IsCriterion([])
  {
  }

  /** A criterion that continues after a logical operator. */
  lemma CriterionThen(s: string, n: nat)
    requires ComparisonLength(s) == n > 0 && n + 2 < |s|
    requires IsLogicalOperator(s[n..n + 2]) && IsCriterion(s[n + 2..])
    ensures IsCriterion(s)
  {
  }

  lemma Parts(x: string, y: string)
    ensures (x + y)[..|x|] == x && (x + y)[|x|..] == y
  {
  }

  lemma DropTwice(s: string, i: nat, j: nat)
    requires i + j <= |s|
    ensures s[i..][j..] == s[i + j..]
  {
  }

  /** Letters, an operator and a value, followed by nothing or by a logical
      operator, are read as one comparison. */
  lemma ComparisonOf(name: string, op: string, value: string, rest: string)
    requires IsLetters(name) && IsComparisonOperator(op) && IsAlnums(value)
    requires rest == [] || rest[0] == '&' || rest[0] == '|'
    ensures ComparisonLength(name + (op + (value + rest))) == |name| + |op| + |value|
  {
    var vr := value + rest;
    var ovr := op + vr;
    var s := name + ovr;
    Parts(name, ovr);
    assert s[|name|] == op[0];
    LetterRunIs(s, |name|);
    Parts(op, vr);
    OperatorLengthIs(ovr, |op|, value[0]);
    Parts(value, rest);
    AlnumRunIs(vr, |value|, value);
    DropTwice(s, |name|, |op|);
  }

  /** A single comparison is a criterion. */
  lemma ComparisonIsCriterion(name: string, op: string, value: string)
    requires IsLetters(name) && IsComparisonOperator(op) && IsAlnums(value)
    ensures IsCriterion(name + (op + value))
  {
    ComparisonOf(name, op, value, []);
    assert value + [] == value;
  }

  /** A comparison, a logical operator and a criterion form a criterion. */
  lemma JoinedCriterion(name: string, op: string, value: string, logical: string, rest: string)
    requires IsLetters(name) && IsComparisonOperator(op) && IsAlnums(value)
    requires IsLogicalOperator(logical) && IsCriterion(rest)
    ensures IsCriterion(name + (op + (value + (logical + rest))))
  {
    ComparisonOf(name, op, value, logical + rest);
    var s := name + (op + (value + (logical + rest)));
    var k := |name| + |op| + |value|;
    JoinedTail(name, op, value, logical + rest);
    CriterionAfter(s, k, logical, rest);
  }

  lemma CriterionAfter(s: string, k: nat, logical: string, rest: string)
    requires ComparisonLength(s) == k > 0 && k <= |s| && s[k..] == logical + rest
    requires IsLogicalOperator(logical) && IsCriterion(rest)
    ensures IsCriterion(s)
  {
    assert |logical| == 2;
    SplitAfter(s, k, logical, rest);
    CriterionThen(s, k);
  }

  lemma SplitAfter(s: string, k: nat, logical: string, rest: string)
    requires k <= |s| && s[k..] == logical + rest && |logical| == 2
    ensures s[k..k + 2] == logical && s[k + 2..] == rest
  {
    Parts(logical, rest);
    Window(s, k, 2);
    DropTwice(s, k, 2);
  }

  lemma Window(s: string, k: nat, n: nat)
    requires k + n <= |s|
    ensures s[k..k + n] == s[k..][..n]
  {
  }

  lemma JoinedTail(name: string, op: string, value: string, rest: string)
    ensures (name + (op + (value + rest)))[|name| + |op| + |value|..] == rest
  {
    Parts(name, op + (value + rest));
    Parts(op, value + rest);
    Parts(value, rest);
    DropTwice(name + (op + (value + rest)), |name|, |op|);
    DropTwice(name + (op + (value + rest)), |name| + |op|, |value|);
  }

  /** `&&` and `||` may be mixed in one criterion. */
  lemma MixedOperatorsAccepted()
    ensures IsCriterion("a=1&&b<=2||c!=x")
  {
    var c := "c" + ("!=" + "x");
    assert IsCriterion(c) by {
      ComparisonIsCriterion("c", "!=", "x");
    }
    var b := "b" + ("<=" + ("2" + ("||" + c)));
    assert IsCriterion(b) by {
      JoinedCriterion("b", "<=", "2", "||", c);
    }
    var a := "a" + ("=" + ("1" + ("&&" + b)));
    assert IsCriterion(a) by {
      JoinedCriterion("a", "=", "1", "&&", b);
    }
    MixedText();
  }

  lemma MixedText()
    ensures "a" + ("=" + ("1" + ("&&" + ("b" + ("<=" + ("2" + ("||" + ("c" + ("!=" + "x")))))))))
      == "a=1&&b<=2||c!=x"
  {
  }

  /** Spaces are not part of the pattern. */
  lemma SpacedCriterionRejected()
    ensures !IsCriterion("a = 1")
  {
    assert LetterRun("a = 1") == 1;
    assert OperatorLength("a = 1"[1..]) == 0;
  }
}
