/** The Java and commons-lang string operations the engine relies on, stated
    on `seq<char>` with Java's conventions (indexes from 0, -1 for "absent"). */
module Strings {
  import opened Results

  /** Java's Character.isWhitespace: the Unicode space, line and paragraph
      separators except the non-breaking ones, plus the ASCII controls
      TAB, LF, VT, FF, CR and FS, GS, RS, US. */
  predicate IsWhitespace(c: char) {
    c == ' ' || c == '\t' || c == '\n' || c == '\U{000B}' || c == '\U{000C}' || c == '\r'
    || ('\U{001C}' <= c <= '\U{001F}')
    || c == '\U{1680}' || ('\U{2000}' <= c <= '\U{200A}' && c != '\U{2007}')
    || c == '\U{2028}' || c == '\U{2029}' || c == '\U{205F}' || c == '\U{3000}'
  }

  /** StringUtils.isBlank on a non-null string: empty or only whitespace. */
  predicate IsBlank(s: string) {
    forall i :: 0 <= i < |s| ==> IsWhitespace(s[i])
  }

  /** String.trim drops every code unit at or below U+0020 from both ends. */
  predicate IsTrimmable(c: char) { c <= ' ' }

  function TrimStart(s: string): (r: string)
    ensures |r| <= |s| && r == s[|s| - |r|..]
    ensures forall i :: 0 <= i < |s| - |r| ==> IsTrimmable(s[i])
    ensures r != [] ==> !IsTrimmable(r[0])
  {
    if s != [] && IsTrimmable(s[0]) then TrimStart(s[1..]) else s
  }

  function TrimEnd(s: string): (r: string)
    ensures |r| <= |s| && r == s[..|r|]
    ensures forall i :: |r| <= i < |s| ==> IsTrimmable(s[i])
    ensures r != [] ==> !IsTrimmable(r[|r| - 1])
  {
    if s != [] && IsTrimmable(s[|s| - 1]) then TrimEnd(s[..|s| - 1]) else s
  }

  /** String.trim: the longest infix whose ends are above U+0020. */
  function Trim(s: string): (r: string)
  {
    TrimEnd(TrimStart(s))
  }

  /** `Trim(s)` is `s[a..b]`, and everything outside it is trimmable. */
  predicate TrimmedBetween(s: string, a: int, b: int) {
    && 0 <= a <= b <= |s| && Trim(s) == s[a..b]
    && (forall i :: 0 <= i < a ==> IsTrimmable(s[i]))
    && (forall i :: b <= i < |s| ==> IsTrimmable(s[i]))
  }

  /** Trim removes only trimmable characters, and from the ends only, and
      what it keeps neither starts nor ends with one. */
  lemma TrimIsInfix(s: string)
    ensures exists a, b :: TrimmedBetween(s, a, b)
    ensures Trim(s) != [] ==> !IsTrimmable(Trim(s)[0]) && !IsTrimmable(Trim(s)[|Trim(s)| - 1])
  {
    var a := |s| - |TrimStart(s)|;
    TrimBounds(s, a, a + |Trim(s)|);
    TrimEnds(s);
  }

  lemma TrimEnds(s: string)
    ensures Trim(s) != [] ==> !IsTrimmable(Trim(s)[0]) && !IsTrimmable(Trim(s)[|Trim(s)| - 1])
  {
    var t := TrimStart(s);
    var r := TrimEnd(t);
    if r != [] {
      assert r == t[..|r|];
      assert r[0] == t[0];
    }
  }

  lemma TrimBounds(s: string, a: int, b: int)
    requires a == |s| - |TrimStart(s)| && b == a + |Trim(s)|
    ensures TrimmedBetween(s, a, b)
  {
    TrimSlice(s, a, b);
    TrimmableTail(s, a, |Trim(s)|);
  }

  lemma TrimSlice(s: string, a: int, b: int)
    requires a == |s| - |TrimStart(s)| && b == a + |Trim(s)|
    ensures 0 <= a <= b <= |s| && Trim(s) == s[a..b]
  {
    var t := TrimStart(s);
    var r := TrimEnd(t);
    assert t == s[a..];
    assert r == t[..|r|];
    SliceOfSuffix(s, a, |r|);
    assert r == s[a..b];
  }

  lemma SliceOfSuffix(s: string, a: nat, k: nat)
    requires a + k <= |s|
    ensures s[a..][..k] == s[a..a + k]
  {
  }

  /** Trimmable characters at the end of a suffix are trimmable in the whole. */
  lemma TrimmableTail(s: string, a: nat, k: nat)
    requires a <= |s| && k <= |s| - a
    requires forall j :: k <= j < |s| - a ==> IsTrimmable(s[a..][j])
    ensures forall i :: a + k <= i < |s| ==> IsTrimmable(s[i])
  {
    forall i | a + k <= i < |s|
      ensures IsTrimmable(s[i])
    {
      assert s[i] == s[a..][i - a];
    }
  }

  /** The string neither starts nor ends with a trimmable character. */
  predicate Tight(s: string) {
    s != [] ==> !IsTrimmable(s[0]) && !IsTrimmable(s[|s| - 1])
  }

  /** A tight string is its own trim. */
  lemma TrimOfTight(s: string)
    requires Tight(s)
    ensures Trim(s) == s
  {
    if s != [] {
      assert TrimStart(s) == s;
      assert TrimEnd(s) == s;
    }
  }

  /** A leading trimmable character is dropped by the trim. */
  lemma TrimAfterSpace(c: char, s: string)
    requires IsTrimmable(c)
    ensures Trim([c] + s) == Trim(s)
  {
    assert ([c] + s)[1..] == s;
  }

  /** Trimming twice is trimming once. */
  lemma TrimIdempotent(s: string)
    ensures Trim(Trim(s)) == Trim(s)
  {
    var r := Trim(s);
    TrimEnds(s);
    if r != [] {
      assert TrimStart(r) == r;
      assert TrimEnd(r) == r;
    }
  }

  predicate IsDigit(c: char) { '0' <= c <= '9' }

  /** StringUtils.isNumeric on a non-null string: non-empty and only digits. */
  predicate IsNumeric(s: string) {
    |s| > 0 && forall i :: 0 <= i < |s| ==> IsDigit(s[i])
  }

  function DigitValue(c: char): (d: nat)
    requires IsDigit(c)
    ensures d < 10
  {
    (c as int) - ('0' as int)
  }

  function DigitChar(d: nat): (c: char)
    requires d < 10
    ensures IsDigit(c) && DigitValue(c) == d
  {
    (('0' as int) + d) as char
  }

  /** The decimal value of a string of digits (most significant first). */
  function DigitsValue(s: string): nat
    requires forall i :: 0 <= i < |s| ==> IsDigit(s[i])
  {
    if s == [] then 0 else 10 * DigitsValue(s[..|s| - 1]) + DigitValue(s[|s| - 1])
  }

  /** A single digit reads as its own value. */
  lemma SingleDigit(s: string, d: nat)
    requires d < 10 && s == [DigitChar(d)]
    ensures IsNumeric(s) && DigitsValue(s) == d
  {
    assert s[..0] == [];
  }

  /** Decimal rendering of a natural number, without leading zeros. */
  function NatToString(n: nat): (s: string)
    ensures IsNumeric(s)
    ensures |s| > 1 ==> s[0] != '0'
  {
    if n < 10 then [DigitChar(n)] else NatToString(n / 10) + [DigitChar(n % 10)]
  }

  /** Rendering and then reading back gives the same number. */
  lemma {:induction false} NatToStringRoundTrip(n: nat)
    ensures DigitsValue(NatToString(n)) == n
  {
    if n >= 10 {
      var s := NatToString(n);
      assert s[..|s| - 1] == NatToString(n / 10);
      NatToStringRoundTrip(n / 10);
    }
  }

  /** Signed decimal rendering (Integer.toString, BigDecimal.toString of an integer). */
  function IntToString(n: int): (s: string)
    ensures |s| > 0
  {
    if n < 0 then "-" + NatToString(-n) else NatToString(n)
  }

  const IntMin: int := -0x8000_0000
  const IntMax: int := 0x7FFF_FFFF

  predicate IsInt32(n: int) { IntMin <= n <= IntMax }

  /** Integer.parseInt: an optional '+' or '-' then at least one digit, the
      value within the 32-bit range; anything else is a NumberFormatException. */
  function ParseInt(s: string): (r: Result<int>)
    ensures r.Ok? ==> IsInt32(r.value)
    ensures IsNumeric(s) && DigitsValue(s) <= IntMax ==> r == Ok(DigitsValue(s))
    ensures IsNumeric(s) && DigitsValue(s) > IntMax ==> r == Err(NumberFormat)
    ensures !IsNumeric(s) && !(|s| > 1 && (s[0] == '-' || s[0] == '+') && IsNumeric(s[1..])) ==> r == Err(NumberFormat)
  {
    var neg := |s| > 0 && s[0] == '-';
    var digits := if |s| > 0 && (s[0] == '-' || s[0] == '+') then s[1..] else s;
    if !IsNumeric(digits) then Err(NumberFormat)
    else
      var v := if neg then -(DigitsValue(digits) as int) else DigitsValue(digits) as int;
      if IsInt32(v) then Ok(v) else Err(NumberFormat)
  }

  /** Integer.parseInt reads back what Integer.toString writes. */
  lemma ParseIntRoundTrip(n: int)
    requires IsInt32(n)
    ensures ParseInt(IntToString(n)) == Ok(n)
  {
    NatToStringRoundTrip(if n < 0 then -n else n);
    if n < 0 {
      assert IntToString(n)[1..] == NatToString(-n);
    }
  }

  /** Math.abs on an int: the absolute value, except that the most negative
      int is its own absolute value (the negation wraps around). */
  function Abs32(n: int): (r: int)
    requires IsInt32(n)
    ensures IsInt32(r)
    ensures n == IntMin ==> r == IntMin
    ensures n != IntMin ==> r >= 0 && (r == n || r == -n)
  {
    if n == IntMin then IntMin else if n < 0 then -n else n
  }

  /** Java's `/` on ints: the quotient truncated toward zero. */
  function JavaDiv(a: int, b: int): int
    requires b != 0
  {
    var m := if b < 0 then -b else b;
    var q := if a >= 0 then a / m else -((-a) / m);
    if b < 0 then -q else q
  }

  /** Java's `%` on ints: truncates toward zero, so the remainder takes the
      sign of the dividend. */
  function JavaRem(a: int, b: int): (r: int)
    requires b != 0
    ensures (a >= 0 ==> 0 <= r) && (a <= 0 ==> r <= 0)
    ensures -(if b < 0 then -b else b) < r < (if b < 0 then -b else b)
  {
    var m := if b < 0 then -b else b;
    if a >= 0 then a % m else -((-a) % m)
  }

  /** Quotient and remainder put the dividend back together. */
  lemma JavaDivRem(a: int, b: int)
    requires b != 0
    ensures a == JavaDiv(a, b) * b + JavaRem(a, b)
  {
    var m := if b < 0 then -b else b;
    var q := if a >= 0 then a / m else -((-a) / m);
    if a >= 0 {
      assert a == q * m + a % m;
    } else {
      assert -a == ((-a) / m) * m + (-a) % m;
      assert a == q * m + JavaRem(a, b);
    }
    if b < 0 {
      assert q * m == (-q) * b;
    }
  }

  predicate StartsWith(s: string, prefix: string) {
    |prefix| <= |s| && s[..|prefix|] == prefix
  }

  predicate EndsWith(s: string, suffix: string) {
    |suffix| <= |s| && s[|s| - |suffix|..] == suffix
  }

  /** String.indexOf(char): the first position of `c`, or -1. */
  function IndexOf(s: string, c: char): (r: int)
    ensures -1 <= r < |s|
    ensures r >= 0 ==> s[r] == c && forall i :: 0 <= i < r ==> s[i] != c
    ensures r == -1 <==> forall i :: 0 <= i < |s| ==> s[i] != c
  {
    if s == [] then -1
    else if s[0] == c then 0
    else var k := IndexOf(s[1..], c); if k < 0 then -1 else k + 1
  }

  predicate OccursAt(s: string, t: string, i: int) {
    0 <= i && i + |t| <= |s| && s[i..i + |t|] == t
  }

  /** String.contains. */
  predicate Contains(s: string, t: string) {
    exists i :: 0 <= i <= |s| && OccursAt(s, t, i)
  }

  /** String.lastIndexOf(String): the last position where `t` occurs, or -1. */
  function LastIndexOf(s: string, t: string): (r: int)
    ensures r == -1 || 0 <= r <= |s| - |t|
    ensures r >= 0 ==> OccursAt(s, t, r) && forall i :: r < i ==> !OccursAt(s, t, i)
    ensures r == -1 ==> forall i :: !OccursAt(s, t, i)
  {
    LastIndexBelow(s, t, |s| - |t|)
  }

  /** The last occurrence of `t` at a position no greater than `k`. */
  function LastIndexBelow(s: string, t: string, k: int): (r: int)
    requires k <= |s| - |t|
    ensures r == -1 || 0 <= r <= k
    ensures r >= 0 ==> OccursAt(s, t, r)
    ensures forall i :: r < i <= k ==> !OccursAt(s, t, i)
    decreases k + 1
  {
    if k < 0 then -1
    else if s[k..k + |t|] == t then k
    else LastIndexBelow(s, t, k - 1)
  }

  /** String.replace(" ", ""): the string with every space dropped. */
  function RemoveSpaces(s: string): (r: string)
    ensures forall i :: 0 <= i < |r| ==> r[i] != ' '
    ensures |r| <= |s|
  {
    if s == [] then []
    else if s[0] == ' ' then RemoveSpaces(s[1..])
    else [s[0]] + RemoveSpaces(s[1..])
  }

  /** Every character of a string except the separators, in order. */
  function Without(s: string, seps: set<char>): string {
    if s == [] then [] else (if s[0] in seps then [] else [s[0]]) + Without(s[1..], seps)
  }

  /** The length of the longest prefix of `s` free of separators. */
  function RunLength(s: string, seps: set<char>): (n: nat)
    ensures n <= |s|
    ensures forall i :: 0 <= i < n ==> s[i] !in seps
    ensures n < |s| ==> s[n] in seps
  {
    if s == [] || s[0] in seps then 0 else 1 + RunLength(s[1..], seps)
  }

  /** StringUtils.split(str, separatorChars): the maximal runs of characters
      that are none of the separator characters; adjacent separators give no
      empty piece. */
  function SplitOn(s: string, seps: set<char>): (r: seq<string>)
    ensures forall k :: 0 <= k < |r| ==> |r[k]| > 0
    ensures forall k, i :: 0 <= k < |r| && 0 <= i < |r[k]| ==> r[k][i] !in seps
    decreases |s|
  {
    if s == [] then []
    else if s[0] in seps then SplitOn(s[1..], seps)
    else
      var n := RunLength(s, seps);
      [s[..n]] + SplitOn(s[n..], seps)
  }

  function Concat(parts: seq<string>): string {
    if parts == [] then [] else parts[0] + Concat(parts[1..])
  }

  lemma WithoutAppend(a: string, b: string, seps: set<char>)
    ensures Without(a + b, seps) == Without(a, seps) + Without(b, seps)
  {
    if a != [] {
      assert (a + b)[1..] == a[1..] + b;
      WithoutAppend(a[1..], b, seps);
    } else {
      assert a + b == b;
    }
  }

  lemma WithoutRun(s: string, seps: set<char>)
    requires forall i :: 0 <= i < |s| ==> s[i] !in seps
    ensures Without(s, seps) == s
  {
  }

  /** Splitting loses exactly the separators: the pieces put back together
      are the input without its separator characters. */
  lemma {:induction false} SplitOnKeepsEverythingElse(s: string, seps: set<char>)
    ensures Concat(SplitOn(s, seps)) == Without(s, seps)
    decreases |s|
  {
    if s == [] {
    } else if s[0] in seps {
      SplitOnKeepsEverythingElse(s[1..], seps);
    } else {
      var n := RunLength(s, seps);
      assert s == s[..n] + s[n..];
      SplitOnKeepsEverythingElse(s[n..], seps);
      WithoutAppend(s[..n], s[n..], seps);
      WithoutRun(s[..n], seps);
      var r := SplitOn(s, seps);
      assert r[1..] == SplitOn(s[n..], seps);
    }
  }

  /** A text without spaces keeps all of its characters. */
  lemma {:induction false} RemoveSpacesOfSpaceless(s: string)
    requires forall i :: 0 <= i < |s| ==> s[i] != ' '
    ensures RemoveSpaces(s) == s
    decreases |s|
  {
    if s != [] {
      RemoveSpacesOfSpaceless(s[1..]);
      assert s == [s[0]] + s[1..];
    }
  }

  /** Leading separators produce no piece. */
  lemma {:induction false} SplitOnSkips(sep: string, s: string, seps: set<char>)
    requires forall i :: 0 <= i < |sep| ==> sep[i] in seps
    ensures SplitOn(sep + s, seps) == SplitOn(s, seps)
    decreases |sep|
  {
    if sep != [] {
      assert (sep + s)[0] == sep[0] && (sep + s)[1..] == sep[1..] + s;
      SplitOnSkips(sep[1..], s, seps);
    } else {
      assert sep + s == s;
    }
  }

  /** A run free of separators, up to a separator or the end, is one piece. */
  lemma {:induction false} RunLengthOfPiece(p: string, rest: string, seps: set<char>)
    requires forall i :: 0 <= i < |p| ==> p[i] !in seps
    requires rest == [] || rest[0] in seps
    ensures RunLength(p + rest, seps) == |p|
    decreases |p|
  {
    if p != [] {
      assert (p + rest)[1..] == p[1..] + rest;
      RunLengthOfPiece(p[1..], rest, seps);
    }
  }

  /** Splitting two separator-free pieces joined by separators gives the
      two pieces. */
  lemma SplitTwo(p1: string, sep: string, p2: string, seps: set<char>)
    requires p1 != [] && p2 != [] && sep != []
    requires forall i :: 0 <= i < |p1| ==> p1[i] !in seps
    requires forall i :: 0 <= i < |p2| ==> p2[i] !in seps
    requires forall i :: 0 <= i < |sep| ==> sep[i] in seps
    ensures SplitOn(p1 + (sep + p2), seps) == [p1, p2]
  {
    var s := p1 + (sep + p2);
    RunLengthOfPiece(p1, sep + p2, seps);
    assert s[..|p1|] == p1 && s[|p1|..] == sep + p2;
    SplitOnSkips(sep, p2, seps);
    RunLengthOfPiece(p2, [], seps);
    assert p2 + [] == p2;
    assert p2[|p2|..] == [];
    assert SplitOn(p2, seps) == [p2];
  }
}
