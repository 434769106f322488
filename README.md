# jigson query engine in Dafny

jigson answers queries over a JSON document. A query is a chain of
dot-separated segments, for example `@people(age>=18).address.city` or
`@people[0:2].age.sum()`. A segment is a property name, optionally followed by
one of three things:

- an index `name[n]`;
- a slice `name[start:end:step]`;
- a criterion `name(age>=18&&firstName=Sansa)`.

A segment can also be a function call such as `size()`, `sum()`, `avg()`,
`min()`, `max()`, `count()` or `length()`.

This project models the interpreter behind those queries:

- **The lexer.** An ordered, first-pattern-wins prefix lexer (`Tokenizer`) with its four pattern tables.
- **The query cursor.** `Query` reads one segment per call (`nextPath`) and can be forked.
- **The segment grammar.** `PathUtils`, `CriterionUtils` and the `Slice` parser.
- **Property lookup.** `JsonUtils.getPropertyByPath` and its in-place helpers.
- **Criterion evaluation.**
  - One `name op value` triple is evaluated by `JsonPredicate`.
  - A chain of `&&` and `||` is evaluated by `JsonExpression`, as a left fold with no short circuit.
- **Array filtering.** The three array-filter strategies: ALL_IF_ANY_MATCHING, KEEP_MATCHING_AND_PRIMITIVES and ONLY_MATCHING.
- **The three flows:**
  - the read-only fetch (`FetchFlow`);
  - the in-place, shape-keeping keep (`KeepFlow`);
  - the `?query op number` expression (`ExpressionFlow`).
- **The aggregates.** Count, size, length, sum, average, min and max, reached through two dispatchers:
  - the fixed prefix chain;
  - the plugin registry and its router.
- **The settings object.** `Context` holds the filter strategy, the precision and the rounding mode.

How each part is represented:

- **JSON.** A JSON document is the datatype `JsonValues.Json`. An object keeps its members in
  insertion order, with unique names. A Java `null`, where the source tells it apart
  from JSON null, is `Option.None`.
- **Exceptions.** Every exception the source throws is an `Err` of `Results.Result`,
  named after the Java exception.
- **Decimals.** A `BigDecimal` is a `Decimals.Dec` (an unscaled integer and a scale).
- **32-bit arithmetic.** Java's 32-bit arithmetic is written out wherever it shows:
  - `Math.abs` of the int minimum;
  - the truncating `%` in the rounding mode;
  - the overflowing index addition in a slice's stream.
- **Imperative parts.** The parts that change state in place are classes with
  `modifies` clauses:
  - the tokenizer, the query cursor and the slice parser loop;
  - the plugin registry, the plugin configuration and the router;
  - the settings context;
  - the fetch and keep flows, and the array clear.

  Each of their methods is proved equal to a function. The properties are proved
  as lemmas about that function.
- **The keep flow.** It works on a copy of the document and edits that copy in
  place. It is modelled as a walk over the copy, with a cursor that is either a
  path into the copy or a fresh array holding copies of listed items of an array
  in it. The model thus reproduces two effects of the source:
  - after an array segment, the walk goes on over a fresh array;
  - a second array filter on that fresh array therefore no longer reaches the document,
    while changes made to its objects still do.

## Model

| member | source | states |
|---|---|---|
| Tokens.KindCodes | src/main/java/io/jigson/core/Token.java:24-46 | the kind codes are 1..22 in order (plus the fresh code 23 for `?`), pairwise distinct |
| Tokens.LiteralMatch | src/main/java/io/jigson/core/TokenPattern.java:23-28 | an escaped-literal pattern matches exactly when the text starts with its own non-empty text, and then consumes that text |
| Tokens.DigitsMatch | src/main/java/io/jigson/core/TokenPattern.java:30 | `\d+` matches iff the text starts with a digit, consumes only digits, and stops at the first non-digit |
| Tokens.IdentifierMatch | src/main/java/io/jigson/core/TokenPattern.java:29 | the variable pattern matches iff the text starts with an ASCII letter, then consumes the longest run of letters, digits and underscores |
| Tokens.MatchIsVisible | src/main/java/io/jigson/core/TokenPattern.java:23-46 | no pattern of the catalogue consumes whitespace or `#`: every consumed character is visible |
| Tokens.PrefixOperatorsOverlap | src/main/java/io/jigson/core/TokenPattern.java:38-46 | `=`/`=>`, `<`/`<=`, `>`/`>=` both match the two-character operator, the single one only its first character |
| Tokens.MatchLength | src/main/java/io/jigson/core/TokenPattern.java:23-46 | how many characters a pattern consumes at the head of a text, never more than the text holds; the three lemmas above say which characters each kind of pattern takes |
| Lexer.FirstMatchFrom | src/main/java/io/jigson/core/Tokenizer.java:56-64 | the result, when present, is a pattern from `j` on that matches and no earlier one (from `j`) matches; absent means none from `j` matches |
| Lexer.LexStep | src/main/java/io/jigson/core/Tokenizer.java:57-62 | when the first matching pattern is `i`, the scan emits its kind with the trimmed matched text and goes on with the trimmed remainder |
| Lexer.Lex | src/main/java/io/jigson/core/Tokenizer.java:54-65 | the scan of a blank text emits no token, and a scan that emits no token leaves the whole text unread |
| Lexer.Tokenized | src/main/java/io/jigson/core/Tokenizer.java:66-69 | a blank expression fails with UnexpectedSymbol; success returns the scanned tokens and they are never empty; the only failure is UnexpectedSymbol |
| Lexer.Tokenizer.constructor | src/main/java/io/jigson/core/Tokenizer.java:37-42 | a new lexer holds no patterns and no tokens |
| Lexer.Tokenizer.WithPattern | src/main/java/io/jigson/core/Tokenizer.java:44-47 | appends the pattern after the registered ones, keeps the tokens and returns the same lexer |
| Lexer.Tokenizer.Tokenize | src/main/java/io/jigson/core/Tokenizer.java:49-70 | the patterns are kept; the token list grows by exactly the scanned tokens; the result is UnexpectedSymbol when the (accumulated) list is empty or the input blank, else the whole list |
| Lexer.NewTokenizer | src/main/java/io/jigson/core/TokenizerFactory.java:24-83 | registering a table pattern by pattern gives a fresh lexer holding that table in order and no tokens |
| Lexer.TokenizeFresh | src/main/java/io/jigson/core/Tokenizer.java:49-70 | one call on a freshly built lexer returns exactly `Tokenized` of the table and the expression |
| Lexer.TablesAreWellFormed | src/main/java/io/jigson/core/TokenizerFactory.java:24-83 | none of the four factory tables holds a pattern that could consume whitespace or `#` |
| Lexer.UntrimmedTrim | src/main/java/io/jigson/core/Tokenizer.java:59 | trimming the remainder drops only characters that are whitespace anyway |
| Lexer.LexKeepsEveryVisibleChar | src/main/java/io/jigson/core/Tokenizer.java:54-65 | the token texts followed by the unscanned remainder hold every non-whitespace character of the input, in order |
| Lexer.ScanStep | src/main/java/io/jigson/core/Tokenizer.java:57-62 | a scan step on the first matching pattern consumes a non-empty visible prefix and emits exactly one token for it |
| Lexer.LexTokensAreVisible | src/main/java/io/jigson/core/Tokenizer.java:60 | every emitted token text is non-empty and made of visible characters only |
| Lexer.LexStopsWithoutMatch | src/main/java/io/jigson/core/Tokenizer.java:54-65 | when no pattern matches a non-blank text the loop stops, emitting nothing and leaving the text unscanned |
| Lexer.FirstMatchIs | src/main/java/io/jigson/core/Tokenizer.java:56-63 | a pattern that matches with no earlier pattern matching is the one the loop picks |
| Lexer.NoMatchOnFirst | src/main/java/io/jigson/core/TokenPattern.java:23-46 | a pattern that cannot start with the text's first character does not match |
| Lexer.GreaterOrEqualWinsInQueryTable | src/main/java/io/jigson/core/TokenizerFactory.java:59-60 | in the query table `>=` is read as one GTET token: `>=` is tried before `>`, which would match only one character |
| Lexer.ThenWinsInQueryTable | src/main/java/io/jigson/core/TokenizerFactory.java:56-57 | in the query table `=>` is read as one THEN token, ahead of `=` |
| Lexer.LexSpelled | src/main/java/io/jigson/core/Tokenizer.java:54-65 | tokens spelled out with only spaces between them, each of which the table reads back from its place, lex back to exactly those tokens |
| Lexer.TokenizedSpelled | src/main/java/io/jigson/core/Tokenizer.java:49-70 | such a spelling of at least one token is tokenized to exactly those tokens |
| Queries.SegmentLength | src/main/java/io/jigson/core/flow/Query.java:59-70 | the tokens before the returned index are not dots and the token at it, if any, is the dot that ends the path |
| Queries.Segment | src/main/java/io/jigson/core/flow/Query.java:59-70 | the path read from an exhausted token list, or from one whose next token is a dot, is empty (the lemmas below give the general case) |
| Queries.NonBlankSegmentConsumes | src/main/java/io/jigson/core/flow/Query.java:59-70 | reading a non-blank path segment advances past at least one token |
| Queries.SegmentThenRest | src/main/java/io/jigson/core/flow/Query.java:59-70 | reading a segment loses only the ending dot: the segment text, then the rest, is every token text but that dot |
| Queries.SegmentOfDotFree | src/main/java/io/jigson/core/flow/Query.java:61-67 | a dot-free run followed by a dot or the end is read whole as the segment, consuming it and the dot |
| Queries.SegmentLengthIs | src/main/java/io/jigson/core/flow/Query.java:61-67 | the segment ends at the only index with non-dots before it and a dot (or the end) at it |
| Queries.SegmentEndsAtDot | src/main/java/io/jigson/core/flow/Query.java:61-67 | from a position, the segment is the texts up to the next dot, and the dot is consumed too |
| Queries.SegmentRunsToEnd | src/main/java/io/jigson/core/flow/Query.java:61-67 | with no dot left, the segment is all the remaining texts and every token is consumed |
| Queries.Query.Over | src/main/java/io/jigson/core/flow/Query.java:40-43 | a query over a token list starts before its first token |
| Queries.Query.Next | src/main/java/io/jigson/core/flow/Query.java:54-57 | returns the token at the cursor and advances by one; past the end fails with NoSuchElement and stays |
| Queries.Query.NextPath | src/main/java/io/jigson/core/flow/Query.java:59-70 | returns the segment at the cursor and advances the cursor by what reading it consumes; the tokens are unchanged |
| Queries.Query.LeftTokens | src/main/java/io/jigson/core/flow/Query.java:72-74 | the number of unread tokens, zero exactly when there is no next token |
| Queries.Query.Fork | src/main/java/io/jigson/core/flow/Query.java:76-83 | with unread tokens, a fresh query over exactly those tokens at its start; EndOfQuery exactly when none is left |
| Queries.From | src/main/java/io/jigson/core/flow/Query.java:34-37 | success is a fresh query at position 0 over the query table's scan of the text; it fails with UnexpectedSymbol exactly when the scan does |
| Queries.BlankQueryFails | src/test/java/io/jigson/core/QueryTest.java:52-70 | a blank or empty query text fails with UnexpectedSymbol |
| Queries.DollarPathLexes | src/main/java/io/jigson/core/TokenizerFactory.java:39-64 | a `$` path of three names lexes with the query table to its six tokens: `$`, name, dot, name, dot, name |
| Queries.PeopleAddressCityLexes | src/test/java/io/jigson/core/QueryTest.java:32-50 | the text `$people.address.city` lexes to the six tokens of that path |
| Queries.SegmentsOfPeopleAddressCity | src/main/java/io/jigson/core/flow/Query.java:59-70 | those six tokens are read as the paths `$people`, `address` and `city`, consuming 3, 2 and 1 tokens, after which nothing is left |
| Queries.PeopleAddressCityPaths | src/test/java/io/jigson/core/QueryTest.java:32-50 | the text `$people.address.city` lexes with the query table to six tokens, which are read as the three paths `$people`, `address`, `city`, after which nothing is left |
| Slices.Slice.StartIndex | src/main/java/io/jigson/core/flow/Slice.java:74-76 | the start bound as read, or 0 when none was given |
| Slices.Slice.EndIndexWithin | src/main/java/io/jigson/core/flow/Slice.java:78-83 | the end bound when it lies within `0..size`, otherwise the size; for a non-negative size always within `0..size` |
| Slices.Slice.Step | src/main/java/io/jigson/core/flow/Slice.java:89-91 | the step as read, or 1 when none was given |
| Slices.ItemValue | src/main/java/io/jigson/core/flow/Slice.java:52-59 | a numeric item within the int range reads as its decimal value; one beyond it fails with NumberFormat |
| Slices.Absorb | src/main/java/io/jigson/core/flow/Slice.java:46-60 | reading one item fails only on a digit string beyond the int range, with NumberFormat; an item that is not a digit string never fails |
| Slices.ScanAll | src/main/java/io/jigson/core/flow/Slice.java:45-61 | reading the items fails only with NumberFormat, and only when some item is a digit string beyond the int range |
| Slices.SliceOf | src/main/java/io/jigson/core/flow/Slice.java:37-62 | no items is IllegalArgument; with items, the only failure is NumberFormat on an item beyond the int range |
| Slices.SliceFrom | src/main/java/io/jigson/core/flow/Slice.java:64-72 | a blank raw index fails in the lexer with UnexpectedSymbol; the only failures are that and NumberFormat |
| Slices.NewSlice | src/main/java/io/jigson/core/flow/Slice.java:37-62 | the loop over the items returns exactly `SliceOf`: an empty list is IllegalArgument, a number that overflows is NumberFormat, otherwise the bounds the items describe |
| Slices.TextsOf | src/main/java/io/jigson/core/flow/Slice.java:65-70 | the item list has one entry per token, the token's text |
| Slices.AbsorbKeepsBounds | src/main/java/io/jigson/core/flow/Slice.java:53-59 | reading one item never overwrites a bound already read, nor clears a colon already seen |
| Slices.ScanKeepsBounds | src/main/java/io/jigson/core/flow/Slice.java:45-61 | bounds read from a prefix of the items are the bounds after all of them, where the prefix set them |
| Slices.ScanBoundsAreMarkersOrNatural | src/main/java/io/jigson/core/flow/Slice.java:33-35 | every bound is either the -1 marker or a non-negative value |
| Slices.ScanThen | src/main/java/io/jigson/core/flow/Slice.java:45-61 | reading one more item continues from the state the earlier items left |
| Slices.ScanErrorSticks | src/main/java/io/jigson/core/flow/Slice.java:54-58 | once a number item fails to parse, later items do not change the error |
| Slices.FullSlice | src/test/java/io/jigson/core/SliceTest.java:26-40 | `n1:n2:n3` reads as start n1, end n2, step n3 |
| Slices.StartAndEnd | src/test/java/io/jigson/core/SliceTest.java:11-24 | `n1:n2` reads as start n1 and end n2, with no step |
| Slices.StepOnly | src/test/java/io/jigson/core/SliceTest.java:74-88 | `::n` reads as a step alone |
| Slices.EndOnly | src/test/java/io/jigson/core/SliceTest.java:58-72 | `:n` reads as an end alone |
| Slices.ColonsOnly | src/test/java/io/jigson/core/SliceTest.java:90-120 | `:` and `::` read as no bounds at all |
| Slices.NoItems | src/main/java/io/jigson/core/flow/Slice.java:39-41 | an empty item list is rejected with IllegalArgument |
| Paths.FindRawIndex | src/main/java/io/jigson/utils/PathUtils.java:42-51 | a non-empty result is the text strictly between the first `[` (not at position 0) and the first `]` |
| Paths.RawIndexFound | src/main/java/io/jigson/utils/PathUtils.java:42-51 | conversely, a non-empty text between a first `[` past position 0 and the first `]` is what is found |
| Paths.FindIndex | src/main/java/io/jigson/utils/PathUtils.java:33-40 | a blank or slice raw index gives the -1 marker; any other is parsed as an int, failing as the parse does |
| Paths.IsFunction | src/main/java/io/jigson/utils/PathUtils.java:29-31 | a function path is not blank and ends in `()`: at least two characters, the last two `(` and `)` |
| Paths.IsSlice | src/main/java/io/jigson/utils/PathUtils.java:53-55 | a slice index is not blank and is never a digit string, so it is never parsed as an index |
| Paths.IndexRoundTrip | src/main/java/io/jigson/utils/PathUtils.java:33-40 | the written form of any 32-bit int is found again as that index |
| Paths.NoColonInNumber | src/main/java/io/jigson/utils/PathUtils.java:53-55 | the written form of an int is not blank and holds no colon, so it is never a slice |
| Paths.FindPropertyName | src/main/java/io/jigson/utils/PathUtils.java:57-67 | the text before the first `[` when that is past position 0, else before the first `(` when that is past 0, else the trimmed path |
| Paths.IndexedSegment | src/main/java/io/jigson/utils/PathUtils.java:42-67 | `name[index]` comes apart into exactly its name and its raw index |
| Paths.CriterionSegment | src/main/java/io/jigson/utils/CriterionUtils.java:29-38 | `name(criterion)` comes apart into its name and its trimmed criterion, with no raw index |
| Paths.FunctionSegment | src/main/java/io/jigson/utils/PathUtils.java:29-31 | `name()` is a function call, its name is `name` and its criterion is empty |
| Paths.BareName | src/main/java/io/jigson/utils/PathUtils.java:29-67 | a plain name is no function call and is its own property name, with no index and no criterion |
| Paths.EmptyBrackets | src/main/java/io/jigson/utils/PathUtils.java:42-55 | `name[]` carries no raw index, so it reads as no index and no slice |
| Paths.OperatorLength | src/main/java/io/jigson/utils/CriterionUtils.java:27 | a non-zero length covers exactly one of the six comparison operators |
| Paths.ComparisonLength | src/main/java/io/jigson/utils/CriterionUtils.java:27 | a comparison recognised at the head of a text fits in it and has at least three characters: a name, an operator and a value |
| Paths.FoundCriterion | src/main/java/io/jigson/utils/CriterionUtils.java:29-42 | `findCriterion` finds a criterion only between a `(` that is not the first character and a later `)`; it is at least three characters shorter than the query and has no surrounding whitespace |
| Paths.ComparisonLengthSound | src/main/java/io/jigson/utils/CriterionUtils.java:27 | what the recogniser takes as a comparison is letters, an operator and letters or digits |
| Paths.ComparisonLengthComplete | src/main/java/io/jigson/utils/CriterionUtils.java:27 | a comparison followed by the end or by `&`/`|` is exactly the one the recogniser takes |
| Paths.ComparisonAt | src/main/java/io/jigson/utils/CriterionUtils.java:27 | letters, an operator and a value in place give the comparison length up to the value's end |
| Paths.CriterionRecogniserIsExact | src/main/java/io/jigson/utils/CriterionUtils.java:44-46 | the deterministic recogniser accepts a text iff it is in the language of the criterion pattern |
| Paths.RecognisedIsInLanguage | src/main/java/io/jigson/utils/CriterionUtils.java:44-46 | every recognised text is in the pattern's language |
| Paths.LanguageIsRecognised | src/main/java/io/jigson/utils/CriterionUtils.java:44-46 | every text in the pattern's language is recognised |
| Paths.EmptyIsNoCriterion | src/main/java/io/jigson/utils/CriterionUtils.java:44-46 | the empty text is not a criterion |
| Paths.CriterionThen | src/main/java/io/jigson/utils/CriterionUtils.java:27 | a comparison, a logical operator and a criterion after it form a criterion |
| Paths.ComparisonOf | src/main/java/io/jigson/utils/CriterionUtils.java:27 | letters, an operator and a value followed by the end or a logical operator form one comparison of that length |
| Paths.ComparisonIsCriterion | src/main/java/io/jigson/utils/CriterionUtils.java:27 | a single comparison is a criterion |
| Paths.JoinedCriterion | src/main/java/io/jigson/utils/CriterionUtils.java:27 | a comparison, a logical operator and a criterion form a criterion |
| Paths.CriterionAfter | src/main/java/io/jigson/utils/CriterionUtils.java:27 | a recognised comparison followed by a logical operator and a criterion is a criterion |
| Paths.MixedOperatorsAccepted | src/main/java/io/jigson/utils/CriterionUtils.java:27 | `&&` and `||` may be mixed in one criterion |
| Paths.SpacedCriterionRejected | src/main/java/io/jigson/utils/CriterionUtils.java:27 | a criterion with spaces around its operator is rejected |
| JsonUtils.Wrap32 | src/main/java/io/jigson/utils/JsonUtils.java:64 | Java int addition: the result is a 32-bit int congruent to the exact sum, and equal to it when that fits |
| JsonUtils.SliceIndexes | src/main/java/io/jigson/utils/JsonUtils.java:63-66 | the stream of indexes keeps at most `limit` of them, each below the end index |
| JsonUtils.Pick | src/main/java/io/jigson/utils/JsonUtils.java:67-68 | the items at the given indexes, in order; IndexOutOfBounds exactly when some index lies outside the array |
| JsonUtils.Stepped | src/main/java/io/jigson/utils/JsonUtils.java:63-66 | start, start + step, ... : every index of that form below the end, and no further one |
| JsonUtils.IndexesAreStepped | src/main/java/io/jigson/utils/JsonUtils.java:63-66 | while no addition overflows, the limited and filtered stream is exactly the stepped indexes below the end |
| JsonUtils.SliceSelectsEveryStep | src/main/java/io/jigson/utils/JsonUtils.java:53-69 | a slice with a non-negative start and positive step selects a fresh array of the items at start, start + step, ... below the clamped end, in order |
| JsonUtils.ZeroStepRepeats | src/main/java/io/jigson/utils/JsonUtils.java:63-66 | a step of 0 yields the start index once for each position the limit allows |
| JsonUtils.FirstTwo | src/main/java/io/jigson/utils/JsonUtils.java:53-69 | `[0:2]` on a two-item array selects both items |
| JsonUtils.EveryOtherFromOne | src/main/java/io/jigson/utils/JsonUtils.java:53-69 | `[1::2]` selects the items at positions 1, 3, 5, ... in order, half of them |
| JsonUtils.HugeStepWraps | src/main/java/io/jigson/utils/JsonUtils.java:63-67 | a step so large that the index addition wraps negative makes the lookup fail with IndexOutOfBounds |
| JsonUtils.PlainSegment | src/main/java/io/jigson/utils/JsonUtils.java:38-43 | a plain segment yields the named property, or JSON null when it is absent |
| JsonUtils.PropertyByPath | src/main/java/io/jigson/utils/JsonUtils.java:38-73 | without the property the result is JSON null; otherwise it is the property's element, one of its items, or an array of its items |
| JsonUtils.SelectSlice | src/main/java/io/jigson/utils/JsonUtils.java:53-69 | a slice is an array of at most as many items as the source, each one of its items; a failure is IndexOutOfBounds |
| JsonUtils.AddOrRemoveObjectAttribute | src/main/java/io/jigson/utils/JsonUtils.java:76-83 | a non-null attribute replaces the member (same member count) or is appended (one more); otherwise the member is removed, and an absent member leaves the object unchanged |
| JsonUtils.IndexedProperty | src/main/java/io/jigson/utils/JsonUtils.java:44-52 | `name[n]` yields the n-th item of the named array; a non-array fails with IllegalJsonElement, an index outside it with IndexOutOfBounds |
| JsonUtils.AttributeWritten | src/main/java/io/jigson/utils/JsonUtils.java:76-83 | afterwards the property holds the attribute when it is present and not null, else it is absent; other properties and name uniqueness are kept |
| JsonUtils.JsonArrayRef.constructor | src/main/java/io/jigson/utils/JsonUtils.java:62 | a new array holds exactly the given items |
| JsonUtils.JsonArrayRef.AddAll | src/main/java/io/jigson/utils/JsonUtils.java:67-68 | appends the other array's items after the existing ones |
| JsonUtils.ClearJsonArray | src/main/java/io/jigson/utils/JsonUtils.java:85-90 | empties the array in place and returns the same array |
| Comparisons.ComparisonOperatorsAreSix | src/main/java/io/jigson/expression/Operators.java:42 | the comparison set holds six operators, neither `&&` nor `||` among them |
| Comparisons.FirstLogical | src/main/java/io/jigson/expression/Operators.java:52-55 | "" when no token is logical; otherwise the text of the first logical token |
| Comparisons.FindLogicalOperator | src/main/java/io/jigson/expression/Operators.java:47-56 | a blank criterion fails with UnexpectedSymbol; otherwise the first logical operator among the criteria-table tokens |
| Comparisons.LexLiteralTexts | src/main/java/io/jigson/expression/Operators.java:52-53 | a token of a kind only a literal pattern produces carries that literal as its text |
| Comparisons.LogicalOperatorIsAndOrOr | src/main/java/io/jigson/expression/Operators.java:47-56 | the operator found is `&&`, `||` or "" |
| Comparisons.RelationOf | src/main/java/io/jigson/expression/Operators.java:30-37 | an operator text names a relation exactly when it is one of the six comparison operators, and that relation is written as the text |
| Comparisons.RelationOfOperatorText | src/main/java/io/jigson/expression/Operators.java:30-37 | every relation is named back by its own operator text |
| Comparisons.CompareNumbers | src/main/java/io/jigson/expression/predicate/LessThanPredicate.java:38-41 | the sign of the comparison is the order of the two decimal values |
| Comparisons.Holds | src/main/java/io/jigson/expression/predicate/LessThanPredicate.java:33-44 | an ordering fails with IllegalArgument exactly when one operand is not a digit string; `=` and `!=` never fail |
| Comparisons.HoldsOnNumbers | src/main/java/io/jigson/expression/predicate/LessThanPredicate.java:38-41 | on digit strings each relation is the one of their decimal values |
| Comparisons.HoldsOnTexts | src/main/java/io/jigson/expression/ExpressionFactory.java:27-30 | off digit strings `=` is text equality and `!=` its negation |
| Comparisons.RelationDuality | src/main/java/io/jigson/expression/ExpressionFactory.java:27-38 | `!=` negates `=`, `>=` negates `<`, `>` negates `<=`, and swapping the operands swaps `<` with `>` and `<=` with `>=` |
| Comparisons.LeadingZerosCompareEqual | src/test/java/io/jigson/expression/predicate/EqPredicateTest.java:111-124 | "001" equals "1" by value and neither is below the other |
| Comparisons.SignedAndDecimalTextsRejected | src/main/java/io/jigson/expression/predicate/LessThanPredicate.java:38-43 | a sign or a decimal point makes an ordering fail with IllegalArgument |
| Comparisons.BooleanExpression | src/main/java/io/jigson/expression/ExpressionFactory.java:26-45 | a comparison operator over two texts builds that comparison, `&&`/`||` over two expressions build the conjunction/disjunction, an unknown operator is IllegalArgument and a mismatched operand ClassCast |
| Comparisons.OrExpressionSemantics | src/main/java/io/jigson/expression/OrExpression.java:29-32 | a disjunction is true iff one operand is; a true first operand decides it without evaluating the second |
| Comparisons.AndExpressionSemantics | src/main/java/io/jigson/expression/ExpressionFactory.java:39-40 | a conjunction is true iff both operands are; a false first operand decides it |
| Comparisons.Interpret | src/main/java/io/jigson/expression/OrExpression.java:29-32 | an expression fails only with IllegalArgument (an ordering over texts that are not digit strings); a constant is its value; `=` and `!=` never fail |
| Comparisons.BuiltComparisonHolds | src/main/java/io/jigson/expression/ExpressionFactory.java:26-38 | a factory-built comparison interprets to whether the operands stand in the operator's relation |
| Comparisons.CreatePredicate | src/main/java/io/jigson/expression/predicate/PredicateFactory.java:31-46 | succeeds exactly on the six comparison operators, keeping the left operand and the operator's relation; otherwise IllegalArgument |
| Comparisons.ValueOf | src/main/java/io/jigson/expression/predicate/LessThanPredicate.java:35-36 | `String.valueOf`: the text itself, or `null` for a Java null, which is never a digit string |
| Comparisons.EqualValues | src/test/java/io/jigson/expression/predicate/EqPredicateTest.java:11-124 | equality is reflexive; a null equals only a null; two digit strings are equal by value and other texts by text |
| Comparisons.Accept | src/main/java/io/jigson/expression/predicate/LessThanPredicate.java:33-44 | an ordering predicate fails exactly when one rendered operand is not a digit string |
| Comparisons.LessThanAccept | src/main/java/io/jigson/expression/predicate/LessThanPredicate.java:33-44 | less-than accepts iff both rendered operands are digit strings with the left value below the right; otherwise it fails |
| Comparisons.LessThanIrreflexive | src/main/java/io/jigson/expression/predicate/LessThanPredicate.java:38-41 | a value is never below an equal value |
| Comparisons.EqualPredicateExamples | src/test/java/io/jigson/expression/predicate/EqPredicateTest.java:11-124 | equal texts and two nulls match; one null does not; equal numbers in different notation match |
| JsonCriteria.Compact | src/main/java/io/jigson/json/expression/JsonExpression.java:39 | the criterion as evaluated holds no space |
| JsonCriteria.ParseTriple | src/main/java/io/jigson/json/expression/JsonPredicate.java:90-103 | three criteria-table tokens give the name, operator and value triple; any other count is IllegalCriteria and a failed scan UnexpectedSymbol |
| JsonCriteria.PredicateAccept | src/main/java/io/jigson/json/expression/JsonPredicate.java:49-71 | a criterion blank once compacted fails in the lexer with UnexpectedSymbol; JSON null is never accepted, it is an error |
| JsonCriteria.AcceptTriple | src/main/java/io/jigson/json/expression/JsonPredicate.java:61-88 | JSON null is IllegalArgument; a primitive is compared by its text; an object without the named member is a NullPointer error, and one whose member is not a primitive a ClassCast error |
| JsonCriteria.Compared | src/main/java/io/jigson/json/expression/JsonPredicate.java:73-80 | with a comparison operator, the relation it names between the actual text and the value; otherwise an error |
| JsonCriteria.Outcomes | src/main/java/io/jigson/json/expression/JsonExpression.java:59-62 | one predicate outcome per piece, each the piece's predicate on the same element |
| JsonCriteria.Collect | src/main/java/io/jigson/json/expression/JsonExpression.java:59-63 | succeeds exactly when every outcome does, with their values in order |
| JsonCriteria.CollectFailure | src/main/java/io/jigson/json/expression/JsonExpression.java:59-63 | the first failing piece's error is the error of the whole |
| JsonCriteria.AndOfConstants | src/main/java/io/jigson/json/expression/JsonExpression.java:87-91 | `&&` over two constant expressions is the conjunction of the constants |
| JsonCriteria.OrOfConstants | src/main/java/io/jigson/json/expression/JsonExpression.java:87-91 | `||` over two constant expressions is the disjunction of the constants |
| JsonCriteria.FoldAndIsAll | src/main/java/io/jigson/json/expression/JsonExpression.java:63 | the `&&` reduction from an initial state is that state and every result |
| JsonCriteria.FoldOrIsAny | src/main/java/io/jigson/json/expression/JsonExpression.java:63 | the `||` reduction from an initial state is that state or some result |
| JsonCriteria.NonBlankIsCombined | src/main/java/io/jigson/json/expression/JsonExpression.java:47-65 | a non-blank criterion whose logical operator is `&&` or `||` is evaluated by splitting on it |
| JsonCriteria.ExpressionHolds | src/main/java/io/jigson/json/expression/JsonExpression.java:47-68 | a criterion blank once compacted holds; one whose logical operator cannot be determined fails |
| JsonCriteria.CombinedHolds | src/main/java/io/jigson/json/expression/JsonExpression.java:53-64 | with `&&` from true or `||` from false, the criterion's value is the reduction of its pieces' results |
| JsonCriteria.CombinedFails | src/main/java/io/jigson/json/expression/JsonExpression.java:59-63 | a piece that fails makes the whole criterion fail with its error |
| JsonCriteria.ObjectFilter | src/main/java/io/jigson/json/filter/strategy/AbstractJsonArrayFilterStrategy.java:41-42 | filtering an object yields the object itself or JSON null |
| JsonCriteria.Route | src/main/java/io/jigson/json/filter/strategy/AbstractJsonArrayFilterStrategy.java:37-48 | a primitive and JSON null pass unchanged; an object becomes itself or JSON null; an array becomes its filtered array or JSON null |
| JsonCriteria.Kept | src/main/java/io/jigson/json/filter/strategy/OnlyMatchingStrategy.java:37-43 | one element contributes at most one survivor and never JSON null; a primitive contributes itself only under KEEP_MATCHING_AND_PRIMITIVES |
| JsonCriteria.KeptEach | src/main/java/io/jigson/json/filter/strategy/OnlyMatchingStrategy.java:37-41 | one contribution per array item, in order |
| JsonCriteria.Gather | src/main/java/io/jigson/json/filter/strategy/OnlyMatchingStrategy.java:37-43 | the contributions join exactly when none fails |
| JsonCriteria.Survivors | src/main/java/io/jigson/json/filter/strategy/OnlyMatchingStrategy.java:35-44 | the survivors exist exactly when every element's contribution can be computed |
| JsonCriteria.ArrayFilter | src/main/java/io/jigson/json/filter/JsonArrayFilter.java:27-51 | every strategy yields an array or JSON null |
| JsonCriteria.FilterFlow | src/main/java/io/jigson/core/flow/FilterFlow.java:46-58 | a missing or null element gives null, a primitive passes unchanged, an object gives itself or null, an array gives an array or null |
| JsonCriteria.Objects | src/main/java/io/jigson/json/filter/strategy/OnlyMatchingStrategy.java:40 | the objects of a sequence, in order, no more of them than items |
| JsonCriteria.Primitives | src/main/java/io/jigson/json/filter/strategy/OnlyMatchingStrategy.java:40 | the primitives of a sequence, in order, no more of them than items |
| JsonCriteria.MatchFlags | src/main/java/io/jigson/json/filter/strategy/OnlyMatchingStrategy.java:41 | one flag per item: whether the criterion holds on it as an object |
| JsonCriteria.Selected | src/main/java/io/jigson/json/filter/strategy/OnlyMatchingStrategy.java:42-43 | the flagged items, never more than the sequence holds |
| JsonCriteria.ObjectsAppend | src/main/java/io/jigson/json/filter/strategy/OnlyMatchingStrategy.java:37-43 | objects and primitives of a concatenation are those of its parts, in order |
| JsonCriteria.RouteOfObject | src/main/java/io/jigson/json/filter/strategy/AbstractJsonArrayFilterStrategy.java:41-42 | a routed object is kept whole iff the criterion holds on it and becomes null iff it does not |
| JsonCriteria.RouteOfArray | src/main/java/io/jigson/json/filter/strategy/AbstractJsonArrayFilterStrategy.java:43-44 | a routed nested array becomes its filtered form: an array or null |
| JsonCriteria.RouteOfScalar | src/main/java/io/jigson/json/filter/strategy/AbstractJsonArrayFilterStrategy.java:38-46 | a routed primitive passes unchanged and a routed null stays null |
| JsonCriteria.KeptShape | src/main/java/io/jigson/json/filter/strategy/OnlyMatchingStrategy.java:37-43 | each item contributes at most itself, and never null: itself when it is a matching object or a primitive the strategy keeps |
| JsonCriteria.GatherCharacterised | src/main/java/io/jigson/json/filter/strategy/OnlyMatchingStrategy.java:37-43 | joining the contributions keeps exactly the flagged objects and, when kept, the primitives, each in order |
| JsonCriteria.SurvivorsCharacterised | src/main/java/io/jigson/json/filter/JsonArrayFilter.java:36-50 | what survives holds no null, exactly the matching objects in order, and the primitives only under KEEP_MATCHING_AND_PRIMITIVES |
| JsonCriteria.OnlyMatchingKeepsMatchingObjects | src/main/java/io/jigson/json/filter/strategy/OnlyMatchingStrategy.java:34-45 | ONLY_MATCHING keeps exactly the matching objects, in order, with no primitive; null exactly when none matches |
| JsonCriteria.KeepMatchingKeepsPrimitives | src/main/java/io/jigson/json/filter/JsonArrayFilter.java:36-42 | KEEP_MATCHING_AND_PRIMITIVES keeps every primitive and exactly the matching objects; null only when there is neither |
| JsonCriteria.AllIfAnyIsAllOrNothing | src/main/java/io/jigson/json/filter/JsonArrayFilter.java:28-34 | ALL_IF_ANY_MATCHING returns the same array or null, and the same array whenever some object matches |
| JsonCriteria.BlankCriterionHolds | src/main/java/io/jigson/json/expression/JsonExpression.java:47-49 | a blank criterion holds on every element |
| JsonCriteria.BlankCriterionKeepsArray | src/main/java/io/jigson/json/filter/JsonArrayFilter.java:28-34 | with a blank criterion an array holding an object is kept whole by the default strategy |
| JsonCriteria.SelectedHasFlagged | src/main/java/io/jigson/json/filter/strategy/OnlyMatchingStrategy.java:42-44 | a flagged item makes the selection non-empty |
| JsonCriteria.AndCriterionIsConjunction | src/main/java/io/jigson/json/expression/JsonExpression.java:53-64 | with `&&`, once every piece evaluates, the criterion holds iff every piece holds |
| JsonCriteria.OrCriterionIsDisjunction | src/main/java/io/jigson/json/expression/JsonExpression.java:53-64 | with `||`, once every piece evaluates, the criterion holds iff some piece holds |
| JsonCriteria.NoShortCircuit | src/main/java/io/jigson/json/expression/JsonExpression.java:59-63 | every piece is evaluated: the first failing piece fails the whole criterion even when an earlier piece already decides it |
| JsonCriteria.NameExamples | src/test/java/io/jigson/json/expression/JsonPredicateTest.java:21-40 | `firstName=John` holds on John Snow and `firstName=Jack` does not; a missing member fails with NullPointer |
| JsonCriteria.AgeIsCompared | src/main/java/io/jigson/json/expression/JsonPredicate.java:77-80 | the age member is compared by its text "25" |
| JsonCriteria.AgeEqualityExamples | src/test/java/io/jigson/json/expression/JsonPredicateTest.java:44-65 | `age=25` holds and `age!=25` does not |
| JsonCriteria.AgeAtLeastExample | src/test/java/io/jigson/json/expression/JsonExpressionTest.java:53-65 | the lower bound of that test's criterion: the triple `age>=25` holds on John Snow |
| JsonCriteria.AgeAboveTenExample | src/test/java/io/jigson/core/JigsonFetchTest.java:202 | the criterion text `age>10` of the minimum-age test parses to the triple (age, `>`, 10) and holds on John Snow, who is 25 |
| JsonCriteria.AgeAtMostExample | src/test/java/io/jigson/json/expression/JsonExpressionTest.java:53-65 | the upper bound of that test's criterion: the triple `age<=50` holds on John Snow |
| JsonCriteria.LastNameExamples | src/test/java/io/jigson/json/expression/JsonExpressionTest.java:20-51 | on John Snow `lastName=Snow` holds and `lastName=Winter` does not |
| JsonCriteria.ComparisonLexes | src/main/java/io/jigson/core/TokenizerFactory.java:24-36 | a name, any of the six comparison operators (`=`, `!=`, `>=`, `>`, `<=`, `<`) and a name or digit value, written without spaces, lex with the criteria table to their three tokens; `>` and `<` lex as themselves because the value after them is never `=` |
| JsonCriteria.ComparisonParses | src/main/java/io/jigson/json/expression/JsonPredicate.java:90-103 | such a comparison, with any of the six operators, parses to its triple |
| JsonCriteria.ComparisonAccept | src/main/java/io/jigson/json/expression/JsonPredicate.java:49-71 | such a comparison, with any of the six operators, is accepted as its own triple |
| JsonCriteria.JoinedLexes | src/main/java/io/jigson/core/TokenizerFactory.java:24-36 | two such comparisons, each with any of the six operators, joined by `&&` or `||` lex to their seven tokens |
| JsonCriteria.JoinedOperator | src/main/java/io/jigson/expression/Operators.java:47-56 | the logical operator found in two joined comparisons, whatever their comparison operators, is the joining one |
| JsonCriteria.FirstLogicalAt | src/main/java/io/jigson/expression/Operators.java:50-55 | the first logical token decides the operator, whatever follows it |
| JsonCriteria.LogicalSeparators | src/main/java/io/jigson/json/expression/JsonExpression.java:75 | the separator characters of `&&` and `||` are `&` and `|` |
| JsonCriteria.JoinedSplits | src/main/java/io/jigson/json/expression/JsonExpression.java:74-76 | splitting two joined comparisons, whatever their comparison operators, on the logical operator's characters gives back the two comparisons |
| JsonCriteria.PairConjunction | src/main/java/io/jigson/json/expression/JsonExpression.java:55-64 | an `&&` criterion that splits into two evaluable pieces holds iff both pieces hold |
| JsonCriteria.PairDisjunction | src/main/java/io/jigson/json/expression/JsonExpression.java:55-64 | an `||` criterion that splits into two evaluable pieces holds iff either piece holds |
| JsonCriteria.JoinedHolds | src/main/java/io/jigson/json/expression/JsonExpression.java:51-68 | two evaluable comparisons, each with any of the six operators, joined by `&&` hold iff both hold, and joined by `||` iff either holds |
| JsonCriteria.FirstAndLastNameExample | src/test/java/io/jigson/json/expression/JsonExpressionTest.java:20-29 | the text `firstName=John&&lastName=Snow` holds on John Snow |
| JsonCriteria.FirstOrLastNameExample | src/test/java/io/jigson/json/expression/JsonExpressionTest.java:31-40 | the text `firstName=John||lastName=Winter` holds on John Snow |
| JsonCriteria.NeitherNameExample | src/test/java/io/jigson/json/expression/JsonExpressionTest.java:42-51 | the text `firstName=Jack||lastName=Winter` does not hold on John Snow |
| JsonCriteria.AgeBetweenExample | src/test/java/io/jigson/json/expression/JsonExpressionTest.java:53-65 | the text `age>=25&&age<=50` holds on John Snow, who is 25 |
| JsonCriteria.PrimitiveIgnoresName | src/main/java/io/jigson/json/expression/JsonPredicate.java:73-75 | on a primitive, the triple's name plays no part |
| Decimals.Add | src/main/java/io/jigson/core/plugin/SumPlugin.java:85 | the sum of two decimals is written at the larger of their scales |
| Decimals.AddIsExact | src/main/java/io/jigson/core/plugin/SumPlugin.java:80-85 | the sum is exact: at any scale fine enough for both operands it is the sum of their unscaled values |
| Decimals.RescaleTwice | src/main/java/io/jigson/core/plugin/SumPlugin.java:85 | writing a decimal at a finer scale in two steps is writing it there in one |
| Decimals.Compare | src/main/java/io/jigson/core/plugin/MinPlugin.java:87 | the comparison is -1, 0 or 1 |
| Decimals.CompareIsByValue | src/main/java/io/jigson/core/plugin/MinPlugin.java:87 | the comparison is by numerical value, whatever the two scales |
| Decimals.Max | src/main/java/io/jigson/core/flow/MaxFlow.java:76 | one of the two operands, and not below either |
| Decimals.Min | src/main/java/io/jigson/core/plugin/MinPlugin.java:87 | one of the two operands, and not above either |
| Decimals.CompareAntisymmetric | src/main/java/io/jigson/core/plugin/MinPlugin.java:87 | swapping the operands negates the comparison, and a value equals itself |
| Decimals.CompareTransitive | src/main/java/io/jigson/core/plugin/MinPlugin.java:87 | the order of decimals is transitive |
| Decimals.RoundedQuotient | src/main/java/io/jigson/core/plugin/AveragePlugin.java:52 | every rounding mode but UNNECESSARY yields a rounded quotient |
| Decimals.DivRem | src/main/java/io/jigson/core/plugin/AveragePlugin.java:52 | the quotient and remainder of natural division, the remainder below the divisor |
| Decimals.RoundedQuotientIsClose | src/main/java/io/jigson/core/plugin/AveragePlugin.java:52 | the rounded quotient is within one unit of the exact one and the HALF modes within half a unit; UNNECESSARY succeeds exactly when the division is exact, and then returns it |
| Decimals.RoundedQuotientDirection | src/main/java/io/jigson/core/plugin/AveragePlugin.java:52 | UP never shrinks the magnitude, DOWN never grows it, CEILING never goes below and FLOOR never above the exact quotient |
| Decimals.Divide | src/main/java/io/jigson/core/plugin/AveragePlugin.java:52 | an unknown rounding mode is IllegalArgument, a zero divisor Arithmetic; otherwise a quotient at the requested scale (UNNECESSARY may fail) |
| Decimals.OperandsAtCommonScale | src/main/java/io/jigson/core/plugin/AveragePlugin.java:52 | the integers divided are the dividend and the divisor moved to a common scale |
| Decimals.DivideIsClose | src/main/java/io/jigson/core/plugin/AveragePlugin.java:52 | the unscaled quotient times the divisor operand is within one divisor of the dividend operand, within half of it in the HALF modes, and equal under UNNECESSARY |
| DecimalText.Zeros | src/main/java/io/jigson/core/flow/AverageFlow.java:46 | a run of exactly `k` zero digits |
| DecimalText.ExponentMark | src/main/java/io/jigson/core/flow/SumFlow.java:72 | the position of the first `e` or `E`, or -1 exactly when there is none |
| DecimalText.ParseMantissa | src/main/java/io/jigson/core/flow/SumFlow.java:72 | a digit string reads as its value at scale 0; a mantissa reads with a non-negative coefficient and a scale below its length; failures are NumberFormat |
| DecimalText.ParsePointed | src/main/java/io/jigson/core/flow/SumFlow.java:72 | digits around a point read with the fraction's length as scale |
| DecimalText.NoPointInNumeric | src/main/java/io/jigson/core/flow/SumFlow.java:72 | a text with a point is not a digit string |
| DecimalText.ParseUnsigned | src/main/java/io/jigson/core/flow/SumFlow.java:72 | an unsigned decimal reads with a non-negative coefficient and an int scale; a scale outside the int range, like every other failure, is NumberFormat |
| DecimalText.Scaled | src/main/java/io/jigson/core/flow/SumFlow.java:72 | an exponent lowers the mantissa's scale; the reading fails with NumberFormat exactly when the lowered scale leaves the int range |
| DecimalText.Parse | src/main/java/io/jigson/core/flow/SumFlow.java:72 | the empty text fails with NumberFormat, a digit string reads as its value at scale 0, a reading always has an int scale, every failure is NumberFormat |
| DecimalText.ToString | src/main/java/io/jigson/core/flow/SumFlow.java:77-79 | the text of a decimal is never empty |
| DecimalText.ZerosValue | src/main/java/io/jigson/core/flow/AverageFlow.java:46 | a run of zeros is a digit string of value 0 |
| DecimalText.LeadingZeros | src/main/java/io/jigson/core/flow/SumFlow.java:72 | leading zeros do not change the value of a digit string |
| DecimalText.ExponentRoundTrip | src/main/java/io/jigson/core/flow/AverageFlow.java:43 | the exponent text written by toString reads back as the exponent |
| DecimalText.PointAfterDigits | src/main/java/io/jigson/core/flow/SumFlow.java:72 | the point after a run of digits is the first point |
| DecimalText.MarkAfterMantissa | src/main/java/io/jigson/core/flow/SumFlow.java:72 | the marker after a marker-free mantissa is the first marker |
| DecimalText.WithExponent | src/main/java/io/jigson/core/flow/SumFlow.java:72 | a mantissa and an exponent read separately, the exponent lowering the scale, and NumberFormat when that scale leaves the int range |
| DecimalText.ParseUnsignedAt | src/main/java/io/jigson/core/flow/SumFlow.java:72 | a text whose first marker splits it into a readable mantissa and exponent reads as the mantissa scaled by the exponent |
| DecimalText.WithoutExponent | src/main/java/io/jigson/core/flow/SumFlow.java:72 | a mantissa without an exponent reads as the mantissa when its scale is an int, and NumberFormat otherwise |
| DecimalText.PointedMantissa | src/main/java/io/jigson/core/flow/SumFlow.java:72 | digits split by one point read as the joined digits with the fraction's length as scale |
| DecimalText.PlainRoundTrip | src/main/java/io/jigson/core/flow/AverageFlow.java:43 | a coefficient written with a point `scale` places from the right reads back at that scale |
| DecimalText.SplitRoundTrip | src/main/java/io/jigson/core/flow/AverageFlow.java:43 | a coefficient split by a point reads back as the coefficient at the fraction's scale |
| DecimalText.PaddedRoundTrip | src/main/java/io/jigson/core/flow/AverageFlow.java:43 | `0.`, padding zeros and the coefficient read back at the written scale |
| DecimalText.ScientificRoundTrip | src/main/java/io/jigson/core/flow/AverageFlow.java:43 | scientific notation reads back as the coefficient at its scale |
| DecimalText.ScientificParts | src/main/java/io/jigson/core/flow/AverageFlow.java:43 | the mantissa and exponent of scientific notation read back separately |
| DecimalText.LeadingMantissa | src/main/java/io/jigson/core/flow/AverageFlow.java:43 | the leading-digit mantissa reads back as the coefficient with one digit before the point |
| DecimalText.UnsignedRoundTrip | src/main/java/io/jigson/core/flow/AverageFlow.java:43 | every unsigned text toString writes reads back as its coefficient and scale |
| DecimalText.ParseToStringRoundTrip | src/main/java/io/jigson/core/flow/AverageFlow.java:43 | for a decimal with an int scale (as every BigDecimal has), reading back its text gives the same unscaled value and scale |
| DecimalText.UnsignedTextLeadsWithDigit | src/main/java/io/jigson/core/flow/AverageFlow.java:43 | the unsigned text starts with a digit |
| DecimalText.ParseNegative | src/main/java/io/jigson/core/flow/SumFlow.java:72 | a minus sign negates the unsigned reading |
| DecimalText.ParseUnsignedText | src/main/java/io/jigson/core/flow/SumFlow.java:72 | a text starting with a digit reads as an unsigned decimal |
| DecimalText.ToStringNumeric | src/main/java/io/jigson/core/flow/SumFlow.java:77-79 | the text is a bare digit string exactly for non-negative whole numbers at scale 0 |
| DecimalText.ScaleBeyondInt | src/main/java/io/jigson/core/flow/SumFlow.java:72 | `1.5E-2147483648`, whose scale 2147483649 leaves the int range, fails with NumberFormat as `new BigDecimal` does |
| Aggregates.Length | src/main/java/io/jigson/core/flow/LengthFlow.java:36-69 | an object fails with IllegalJsonElement and nothing else fails; a primitive gives its text length, an array its count |
| Aggregates.Count | src/main/java/io/jigson/core/plugin/CountPlugin.java:64-79 | an array counts its items, and the count is 0 exactly for JSON null and the empty array |
| Aggregates.Size | src/main/java/io/jigson/core/plugin/SizePlugin.java:46-48 | `size` delegates to `count`: an array gives its item count, any other element at most 1 |
| Aggregates.CountIsElementsHeld | src/main/java/io/jigson/core/plugin/CountPlugin.java:47-79 | count never fails: 0 exactly for null and the empty array, the item count of an array, 1 for any other element; size is count |
| Aggregates.CountAndLengthExamples | src/test/java/io/jigson/core/JigsonFetchTest.java:130-144 | two ages count 2; "20" has length 2, "Winterfell" 10, a one-item array 1 and null 0 |
| Aggregates.Parsed | src/main/java/io/jigson/core/flow/SumFlow.java:68-73 | reading the primitives fails only with NumberFormat |
| Aggregates.ParsedReadsEachPrimitive | src/main/java/io/jigson/core/flow/SumFlow.java:70-72 | the reading fails exactly when some primitive is not a decimal; otherwise one decimal per primitive, in order, each its reading |
| Aggregates.ParsedFailsOnNonNumber | src/main/java/io/jigson/core/flow/SumFlow.java:70-72 | the reading of the items fails exactly when some primitive is not a decimal |
| Aggregates.ParsedReadsPrimitives | src/main/java/io/jigson/core/flow/SumFlow.java:70-72 | a successful reading holds one decimal per primitive, in order, each the reading of its text |
| Aggregates.Sum | src/main/java/io/jigson/core/flow/SumFlow.java:36-75 | null and objects fail with IllegalJsonElement; a primitive reads as its decimal |
| Aggregates.AddAll | src/main/java/io/jigson/core/flow/SumFlow.java:73 | the fold of `BigDecimal.add` keeps a scale no smaller than the start's and than every summand's |
| Aggregates.MaxScale | src/main/java/io/jigson/core/flow/SumFlow.java:73 | the largest scale among the accumulator and the decimals |
| Aggregates.AddAllIsExact | src/main/java/io/jigson/core/flow/SumFlow.java:73 | the fold of additions is exact: at any fine enough scale it is the accumulator plus every decimal |
| Aggregates.SumOfArray | src/main/java/io/jigson/core/flow/SumFlow.java:66-75 | the sum of an array exists only when every primitive reads; it is exact, and non-primitives play no part |
| Aggregates.ParsedPrimitives | src/main/java/io/jigson/core/flow/SumFlow.java:70 | only the primitives of an array are read |
| Aggregates.SumOfTwo | src/main/java/io/jigson/core/flow/SumFlow.java:66-75 | two primitives, with or without an object between them, sum to their exact total |
| Aggregates.AgeTexts | src/test/java/io/jigson/core/JigsonFetchTest.java:114-128 | the ages "25" and "20" read as 25 and 20 |
| Aggregates.SumExamples | src/test/java/io/jigson/core/JigsonFetchTest.java:114-128 | `@people.age.sum()` over 25 and 20 is 45, an object among them changes nothing, and the empty array sums to 0 |
| Aggregates.Average | src/main/java/io/jigson/core/flow/AverageFlow.java:41-51 | a non-array is its sum; an array's average is at the configured precision |
| Aggregates.AverageOfArray | src/main/java/io/jigson/core/flow/AverageFlow.java:43-47 | an unknown rounding mode is IllegalArgument and the empty array Arithmetic; otherwise the sum divided by the item count (objects included), rounded within one unit at the precision |
| Aggregates.AverageExamples | src/test/java/io/jigson/core/JigsonFetchTest.java:146-164 | 25 and 20 average to 22.50 at precision 2, HALF_UP; with an object among them to 15.00; the empty array fails with Arithmetic |
| Aggregates.AverageText | src/test/java/io/jigson/core/JigsonFetchTest.java:146-164 | the average 22.50 is written with its two decimal places |
| Aggregates.Better | src/main/java/io/jigson/core/flow/MaxFlow.java:76 | BigDecimal max or min: one of the two operands, no worse than either |
| Aggregates.NoWorseTransitive | src/main/java/io/jigson/core/flow/MaxFlow.java:76 | "no worse than" is transitive |
| Aggregates.ItemExtremes | src/main/java/io/jigson/core/flow/MaxFlow.java:70-74 | one contribution per item: none for JSON null, else the item's own extreme |
| Aggregates.Extreme | src/main/java/io/jigson/core/flow/MaxFlow.java:55-65 | max and min of JSON null or of an object are IllegalJsonElement errors; of a primitive, its parsed decimal |
| Aggregates.Fold | src/main/java/io/jigson/core/flow/MaxFlow.java:76 | the reduction succeeds exactly when every contribution does |
| Aggregates.FoldIsExtreme | src/main/java/io/jigson/core/plugin/MinPlugin.java:87 | the reduction is no worse than the start and every contribution, and is the start or one of them |
| Aggregates.ExtremeOfArray | src/main/java/io/jigson/core/flow/MaxFlow.java:67-78 | the extreme of an array exists exactly when every non-null item's does; it is no worse than the sentinel and every item's, and is the sentinel or one of them |
| Aggregates.NullsGiveSentinel | src/main/java/io/jigson/core/plugin/MinPlugin.java:82-87 | with no contribution the reduction gives the sentinel |
| Aggregates.AllNullGivesSentinel | src/main/java/io/jigson/core/flow/MaxFlow.java:67-78 | an array of nulls, or an empty one, gives the sentinel the reduction starts from |
| Aggregates.ExtremeOfTwo | src/main/java/io/jigson/core/flow/MaxFlow.java:67-78 | two numeric items give the sentinel folded with the first, then the second |
| Aggregates.ExtremeExamples | src/test/java/io/jigson/core/JigsonFetchTest.java:198-228 | max of the ages 25 and 20 is 25 and min is 20, for any sentinels of any scale that lie beyond the ages |
| Aggregates.NestedObjectFails | src/main/java/io/jigson/core/flow/MaxFlow.java:63-65 | an object inside the array makes max and min fail |
| FunctionFlows.KeyOf | src/main/java/io/jigson/core/flow/FunctionFlowDispatcher.java:29-35 | every prefix has at least three characters |
| FunctionFlows.Apply | src/main/java/io/jigson/core/flow/FunctionFlowDispatcher.java:43-56 | the result is a primitive; count and size never fail and write the count; length fails exactly on an object; sum, avg, min and max succeed exactly when the aggregate does |
| FunctionFlows.Dispatch | src/main/java/io/jigson/core/flow/FunctionFlowDispatcher.java:40-42 | a blank name or a missing element is IllegalArgument |
| FunctionFlows.KeysDiffer | src/main/java/io/jigson/core/flow/FunctionFlowDispatcher.java:29-35 | the seven prefixes differ in their first two characters |
| FunctionFlows.AtMostOneKey | src/main/java/io/jigson/core/flow/FunctionFlowDispatcher.java:43-56 | no name starts with two different prefixes, so the order of the checks does not matter |
| FunctionFlows.DispatchChoosesByPrefix | src/main/java/io/jigson/core/flow/FunctionFlowDispatcher.java:43-56 | a non-blank name starting with an aggregate's prefix runs that aggregate on the element |
| FunctionFlows.DispatchUnknown | src/main/java/io/jigson/core/flow/FunctionFlowDispatcher.java:58 | JSON null comes back exactly for a non-blank name that no prefix starts |
| FunctionFlows.SizeExample | src/main/java/io/jigson/core/flow/FunctionFlowDispatcher.java:45-46 | `size()` over two elements is 2 |
| FunctionFlows.AvgExample | src/test/java/io/jigson/core/JigsonFetchTest.java:146-164 | `avg()` over the ages 25 and 20 is 22.50 under the default number settings |
| Plugins.Registered | src/main/java/io/jigson/plugin/PluginRegistry.java:15-17 | put-if-absent: the key is present afterwards, every existing entry is kept, and only the plugin's key can be new, holding the plugin |
| Plugins.Deregistered | src/main/java/io/jigson/plugin/PluginRegistry.java:19-21 | the key is absent afterwards and every other entry is unchanged |
| Plugins.RegisteredSeven | src/main/java/io/jigson/core/PluginsConfig.java:17-25 | registering seven plugins in turn is seven successive put-if-absent steps |
| Plugins.RegisterIdempotent | src/main/java/io/jigson/plugin/PluginRegistry.java:15-17 | registering the same plugin twice is registering it once |
| Plugins.RegisteredAllKeepsExisting | src/main/java/io/jigson/plugin/PluginRegistry.java:15-17 | a registered plugin is never replaced, and the keys afterwards are the old ones and the new plugins' keys |
| Plugins.RegisteredAllKeyed | src/main/java/io/jigson/plugin/PluginRegistry.java:15-17 | registration keeps every plugin under its own key |
| Plugins.EmbeddedPlugins | src/main/java/io/jigson/core/PluginsConfig.java:17-25 | the embedded plugins are seven |
| Plugins.EmbeddedRegistration | src/main/java/io/jigson/core/PluginsConfig.java:17-25 | registering the embedded plugins keeps every existing entry and adds exactly the seven embedded keys |
| Plugins.PluginRegistry.constructor | src/main/java/io/jigson/plugin/PluginRegistry.java:12-13 | a new registry is empty |
| Plugins.PluginRegistry.Register | src/main/java/io/jigson/plugin/PluginRegistry.java:15-17 | the registry becomes the put-if-absent of the plugin under its key |
| Plugins.PluginRegistry.Deregister | src/main/java/io/jigson/plugin/PluginRegistry.java:19-21 | the registry loses the key and nothing else |
| Plugins.PluginRegistry.GetPlugins | src/main/java/io/jigson/plugin/PluginRegistry.java:23-25 | the set of registered plugins: exactly the values of the map |
| Plugins.PluginsConfig.constructor | src/main/java/io/jigson/core/PluginsConfig.java:12-15 | the config works on the registry it is given |
| Plugins.PluginsConfig.RegisterEmbeddedPlugins | src/main/java/io/jigson/core/PluginsConfig.java:17-25 | registers length, count, size, sum, min, max and avg in that order |
| Plugins.PluginsConfig.RegisterPlugin | src/main/java/io/jigson/core/PluginsConfig.java:27-30 | registers the plugin and returns the same config |
| Plugins.PluginsConfig.DeregisterPlugin | src/main/java/io/jigson/core/PluginsConfig.java:32-35 | deregisters the key and returns the same config |
| Plugins.DeregisterCount | src/test/java/io/jigson/PluginTest.java:17-31 | after deregistering "count" from the embedded plugins, "count" is gone and the six other keys remain |
| Plugins.FirstAccepting | src/main/java/io/jigson/core/plugin/PluginDispatcher.java:60-65 | the first rule that accepts the name, when there is one; none exactly when no rule accepts it |
| Plugins.Routed | src/main/java/io/jigson/core/plugin/PluginDispatcher.java:58-69 | a name no rule accepts fails with UnrecognizedPlugin |
| Plugins.RouteToOnlyCandidate | src/main/java/io/jigson/core/plugin/PluginDispatcher.java:58-69 | when a single plugin accepts the name, every order of the rules runs that plugin |
| Plugins.Router.constructor | src/main/java/io/jigson/core/plugin/PluginDispatcher.java:48-50 | the routing rules list every registered plugin exactly once, in an order left open |
| Plugins.Router.Route | src/main/java/io/jigson/core/plugin/PluginDispatcher.java:58-69 | the result is the first accepting rule's flow, or UnrecognizedPlugin |
| Plugins.FirstAcceptingAt | src/main/java/io/jigson/core/plugin/PluginDispatcher.java:60-65 | an accepting rule with no accepting rule before it is the one found |
| Plugins.Dispatch | src/main/java/io/jigson/core/plugin/PluginDispatcher.java:35-41 | a missing element is IllegalArgument; otherwise the routing over some ordering of the registered plugins |
| Plugins.RouterAgreesWithChain | src/main/java/io/jigson/core/plugin/PluginDispatcher.java:58-69 | over the embedded plugins alone, routing agrees with the function dispatcher on every recognised name; both refuse a blank name, and for an unknown name the router fails while the function dispatcher returns JSON null |
| Plugins.IncrementRouted | src/test/java/io/jigson/PluginTest.java:63-106 | a custom `increment` plugin registered beside the embedded ones receives `increment()` |
| Plugins.EmbeddedKeysStartElsewhere | src/main/java/io/jigson/core/PluginsConfig.java:17-25 | no embedded key starts with the letter i |
| Settings.StoredMode | src/main/java/io/jigson/config/Context.java:116-119 | Java's truncating `%` by 8: the remainder lies strictly between -8 and 8, has the sign of the argument, and with the truncated quotient gives the argument back |
| Settings.Context.constructor | src/main/java/io/jigson/config/Context.java:31-36 | a fresh context holds ALL_IF_ANY_MATCHING, precision 2 and HALF_UP |
| Settings.Context.AllIfAnyMatching | src/main/java/io/jigson/config/Context.java:70-73 | selects ALL_IF_ANY_MATCHING, leaves the number settings and returns the same context |
| Settings.Context.KeepMatchingAndPrimitives | src/main/java/io/jigson/config/Context.java:75-78 | selects KEEP_MATCHING_AND_PRIMITIVES, leaves the number settings and returns the same context |
| Settings.Context.OnlyMatching | src/main/java/io/jigson/config/Context.java:80-83 | selects ONLY_MATCHING, leaves the number settings and returns the same context |
| Settings.Context.WithPrecision | src/main/java/io/jigson/config/Context.java:102-105 | stores the precision as given and changes nothing else |
| Settings.Context.WithPrecisionAnd | src/main/java/io/jigson/config/Context.java:107-110 | the same change as WithPrecision, for chaining |
| Settings.Context.Precision | src/main/java/io/jigson/config/Context.java:112-114 | Math.abs of the stored precision: non-negative and of the same magnitude, except that Integer.MIN_VALUE stays itself |
| Settings.Context.WithRoundingMode | src/main/java/io/jigson/config/Context.java:116-119 | stores the mode modulo 8 as Java computes it and changes nothing else |
| Settings.Context.RoundingModeAnd | src/main/java/io/jigson/config/Context.java:121-124 | the same change as WithRoundingMode, for chaining |
| Settings.Context.RoundingMode | src/main/java/io/jigson/config/Context.java:126-128 | the stored mode lies strictly between -8 and 8 |
| Settings.Context.Current | src/main/java/io/jigson/core/JigsonConfig.java:39-45 | what a flow reads: the strategy, Math.abs of the precision, and the stored mode |
| Settings.StoredModeExamples | src/main/java/io/jigson/core/JigsonConfig.java:117-120 | 12 is stored as HALF_UP, 7 stays UNNECESSARY, -3 stays -3 and -8 becomes 0 |
| Settings.StoredModeIsValid | src/main/java/io/jigson/core/JigsonConfig.java:117-120 | the stored mode is a valid rounding mode exactly when the argument is non-negative or a multiple of 8 |
| Settings.PrecisionOverflow | src/main/java/io/jigson/core/JigsonConfig.java:113-115 | a stored precision of Integer.MIN_VALUE is read back negative |
| Fetch.PropertyByPath | src/main/java/io/jigson/core/flow/FetchFlow.java:85-97 | an index lookup on an absent property fails with NullPointer |
| Fetch.PropertyByPathAgrees | src/main/java/io/jigson/core/flow/FetchFlow.java:85-118 | where the property is present, this lookup agrees with the JsonUtils one; where it is absent, a successful lookup gives a Java null where JsonUtils gives JSON null |
| Fetch.IndexedSegment | src/main/java/io/jigson/core/flow/FetchFlow.java:92-97 | `name[n]` gives the n-th item of a present array; an absent property is NullPointer, a non-array IllegalJsonElement, an index outside IndexOutOfBounds |
| Fetch.SlicedSegment | src/main/java/io/jigson/core/flow/FetchFlow.java:98-115 | `name[a:b:c]` on a present array gives a fresh array of the slice's items; an absent property is NullPointer, a non-array IllegalState, and slice errors propagate |
| Fetch.FetchObject | src/main/java/io/jigson/core/flow/FetchFlow.java:76-83 | without a criterion the property lookup; with one, the filtered property, JSON null when it is absent, and never a Java null |
| Fetch.FetchedFrom | src/main/java/io/jigson/core/flow/FetchFlow.java:131-132 | each object contributes its fetched property, a Java null stored as JSON null |
| Fetch.Sequenced | src/main/java/io/jigson/core/flow/FetchFlow.java:127-132 | the values of the stream in order, succeeding exactly when every element does |
| Fetch.Collected | src/main/java/io/jigson/core/flow/FetchFlow.java:127-132 | the property fetched from every object, one per object, in order, or the first failure |
| Fetch.FetchArray | src/main/java/io/jigson/core/flow/FetchFlow.java:120-138 | the bare property collected from every object item into a fresh array, filtered by the array strategy when the segment carries a criterion; an array or JSON null |
| Fetch.NoSurvivorsGiveNull | src/main/java/io/jigson/core/flow/FetchFlow.java:134-136 | with a criterion that nothing collected meets, an array fetch gives JSON null |
| Fetch.NonObjectsDropped | src/main/java/io/jigson/core/flow/FetchFlow.java:129 | items that are not objects contribute nothing to an array fetch |
| Fetch.NoObjects | src/main/java/io/jigson/core/flow/FetchFlow.java:129 | a sequence without objects has no objects to fetch from |
| Fetch.Resolve | src/main/java/io/jigson/core/flow/FetchFlow.java:64-74 | a Java null fails with NullPointer, JSON null stays JSON null, a primitive fails with NotImplemented, and an array gives an array or JSON null |
| Fetch.FetchAll | src/main/java/io/jigson/core/flow/FetchFlow.java:48-62 | an empty token list or a blank next path ends the walk with the current element |
| Fetch.Advance | src/main/java/io/jigson/core/flow/FetchFlow.java:54-58 | a function segment goes to the function dispatcher, any other segment is fetched |
| Fetch.FetchEnd | src/main/java/io/jigson/core/flow/FetchFlow.java:53-61 | the walk ends on a blank segment with the element reached |
| Fetch.NullStaysNull | src/main/java/io/jigson/core/flow/FetchFlow.java:69-70 | once the walk reaches JSON null it stays there through any plain segments |
| Fetch.PrimitiveStops | src/main/java/io/jigson/core/flow/FetchFlow.java:71-73 | a plain segment on a primitive fails with NotImplemented |
| Fetch.TwoSegments | src/main/java/io/jigson/core/flow/FetchFlow.java:51-59 | `people.address` reads as the segments `people` and `address`, then a blank one |
| Fetch.NestedFetch | src/main/java/io/jigson/core/flow/FetchFlow.java:48-83 | `people.address` on nested objects walks two objects down and returns the inner value |
| Fetch.BareStep | src/main/java/io/jigson/core/flow/FetchFlow.java:85-88 | a segment that is a bare name reads that property |
| Fetch.FetchFlow.Over | src/main/java/io/jigson/core/flow/FetchFlow.java:40-41 | the flow holds the query and context it is given |
| Fetch.FetchFlow.Flow | src/main/java/io/jigson/core/flow/FetchFlow.java:48-62 | the loop returns exactly the walk over the unread tokens, under the context's settings at call time; the tokens are unchanged |
| Fetch.NewFetchFlow | src/main/java/io/jigson/core/flow/FetchFlow.java:43-46 | the flow reads a fresh fork of the unread tokens; EndOfQuery exactly when none is left |
| Expressions.Substring | src/main/java/io/jigson/core/flow/ExpressionFlow.java:71 | `String.substring`: the characters between the bounds, StringIndexOutOfBounds exactly when the bounds fall outside the string |
| Expressions.LastComparison | src/main/java/io/jigson/core/flow/ExpressionFlow.java:74-79 | the last token that is a comparison operator: no later token is one, and there is none exactly when no token is one |
| Expressions.OperatorIn | src/main/java/io/jigson/core/flow/ExpressionFlow.java:57-79 | the last comparison operator, IllegalQuery exactly when no token is a comparison operator |
| Expressions.Operator | src/main/java/io/jigson/core/flow/ExpressionFlow.java:69-80 | the operator is a comparison operator of one or two characters; an empty query cannot drop its first character |
| Expressions.RightOperand | src/main/java/io/jigson/core/flow/ExpressionFlow.java:82-89 | the trimmed text after the operator, accepted exactly when it is a digit string, otherwise IllegalArgument |
| Expressions.ElementString | src/main/java/io/jigson/core/flow/ExpressionFlow.java:94 | `getAsString` gives a primitive's text, reads through one-item arrays, fails on other arrays (IllegalState) and on objects and JSON null (UnsupportedOperation); a text read comes from a primitive inside one-item arrays |
| Expressions.AsString | src/main/java/io/jigson/core/flow/ExpressionFlow.java:94 | a Java null fetched is dereferenced (NullPointer) |
| Expressions.WrappedString | src/main/java/io/jigson/core/flow/ExpressionFlow.java:94 | a text inside any number of one-item arrays reads back as that text |
| Expressions.LeftOperand | src/main/java/io/jigson/core/flow/ExpressionFlow.java:91-100 | a left operand that succeeds is a digit string, and the operator does not start the query |
| Expressions.LeftOperandOf | src/main/java/io/jigson/core/flow/ExpressionFlow.java:91-100 | the left operand is the fetched value read as a string when it is a digit string; fetch and read failures propagate, a non-digit text is IllegalArgument |
| Expressions.Outcome | src/main/java/io/jigson/core/flow/ExpressionFlow.java:65-66 | the predicate's answer as a boolean primitive; an operator that is not a comparison is IllegalArgument |
| Expressions.OutcomeOnNumbers | src/main/java/io/jigson/core/flow/ExpressionFlow.java:65-66 | on digit strings the answer is the comparison of the two numbers under each of the six operators |
| Expressions.Evaluate | src/main/java/io/jigson/core/flow/ExpressionFlow.java:54-67 | an expression yields a boolean primitive, and fails with the operator's error when no operator is found |
| Expressions.Compared | src/main/java/io/jigson/core/flow/ExpressionFlow.java:59-66 | once the operator is known the result is a boolean primitive |
| Expressions.OperatorOfTokens | src/main/java/io/jigson/core/flow/ExpressionFlow.java:69-80 | the operator is found among the tokens of the query after its first character |
| Expressions.EvaluateCompares | src/main/java/io/jigson/core/flow/ExpressionFlow.java:54-67 | once operator and operands are read, the answer is the numeric comparison of left against right |
| Expressions.EvaluateIsOutcome | src/main/java/io/jigson/core/flow/ExpressionFlow.java:59-66 | the expression's answer is the predicate built from the operator and left operand, applied to the right operand |
| Expressions.NoComparisonIsIllegal | src/test/java/io/jigson/core/JigsonFetchTest.java:333-341 | a query without a comparison operator fails with IllegalQuery |
| Expressions.NonNumericLeftOperand | src/test/java/io/jigson/core/JigsonFetchTest.java:322-331 | a fetched value whose text is not a digit string makes the expression fail with IllegalArgument |
| Expressions.LeftOperandIsFetched | src/main/java/io/jigson/core/flow/ExpressionFlow.java:91-100 | a fetched primitive whose text is a digit string is the left operand |
| Expressions.PeopleSize | src/test/java/io/jigson/core/JigsonFetchTest.java:298-310 | `people.size()` over two people fetches the primitive 2 |
| Expressions.SizeAdvance | src/test/java/io/jigson/core/JigsonFetchTest.java:298-310 | the `size()` segment over two people resolves to 2 |
| Expressions.SizeStep | src/test/java/io/jigson/core/JigsonFetchTest.java:298-310 | the walk through `size()` over two people ends on 2 |
| Expressions.PeopleSizeOperand | src/test/java/io/jigson/core/JigsonFetchTest.java:298-310 | the left operand of `people.size()` over two people is "2" |
| Expressions.CallLexes | src/main/java/io/jigson/core/TokenizerFactory.java:39-64 | a call `a.f()` of two names lexes with the query table to its five tokens |
| Expressions.CallAtLeastReadable | src/main/java/io/jigson/core/TokenizerFactory.java:39-64 | the query table reads each of the seven tokens of `a.f() >= n` back from its place |
| Expressions.CallAtLeastLexes | src/main/java/io/jigson/core/Tokenizer.java:49-70 | `a.f() >= n`, for names `a`, `f` and a digit string `n`, lexes to its seven tokens |
| Expressions.CallAtLeastOperator | src/main/java/io/jigson/core/flow/ExpressionFlow.java:69-80 | the last comparison token among those seven is `>=` |
| Expressions.SizeQueryOperator | src/main/java/io/jigson/core/flow/ExpressionFlow.java:69-80 | the operator of `?people.size() >= 5` is `>=` |
| Expressions.SizeQueryOperatorAt | src/main/java/io/jigson/core/flow/ExpressionFlow.java:59 | in `?people.size() >= 5` the last `>=` starts at position 15 |
| Expressions.SpacedRightOperand | src/main/java/io/jigson/core/flow/ExpressionFlow.java:82-89 | a digit string one space after the operator is the right operand |
| Expressions.SizeQueryRightOperand | src/main/java/io/jigson/core/flow/ExpressionFlow.java:82-89 | the right operand of `?people.size() >= 5` is `5` |
| Expressions.SizeQueryLeftText | src/main/java/io/jigson/core/flow/ExpressionFlow.java:91-100 | the text of `?people.size() >= 5` between the `?` and the operator trims to `people.size()` |
| Expressions.AtLeastFiveOnLexedQuery | src/main/java/io/jigson/core/flow/ExpressionFlow.java:54-67 | a query whose operator is `>=`, whose right operand is `5` and whose left side lexes to the tokens of `people.size()` is false on an object holding two people |
| Expressions.PeopleSizeAtLeastFive | src/test/java/io/jigson/core/JigsonFetchTest.java:298-310 | the query text `?people.size() >= 5` itself, evaluated on an object holding two people, gives the primitive `false` |
| Expressions.BelowIsNotAtLeast | src/main/java/io/jigson/core/flow/ExpressionFlow.java:65-66 | `>=` with a smaller left operand is false |
| Keep.HandleObject | src/main/java/io/jigson/core/flow/KeepFlow.java:66-89 | without a criterion the object is left alone and the property is yielded, JSON null when absent; any non-null yield is what the object now holds under the property name |
| Keep.CriterionWritesBack | src/main/java/io/jigson/core/flow/KeepFlow.java:70-80 | with a criterion, read and filter failures propagate; otherwise the property now holds the filtered value, or is removed when that is JSON null, names stay unique and every other property keeps its value |
| Keep.KeepingAllChangesNothing | src/main/java/io/jigson/core/flow/KeepFlow.java:70-80 | a criterion that lets a present property through unchanged leaves the object exactly as it was |
| Keep.HandleItem | src/main/java/io/jigson/core/flow/KeepFlow.java:97-106 | an object is handled in place and kept exactly when handleObject does not yield JSON null; any other item is kept unchanged |
| Keep.Visit | src/main/java/io/jigson/core/flow/KeepFlow.java:96-107 | the loop leaves an array of the same length |
| Keep.VisitStep | src/main/java/io/jigson/core/flow/KeepFlow.java:96-107 | one turn of the loop: the first failure ends it, otherwise the item is replaced by its handled form and its position kept when its outcome says so |
| Keep.Outcomes | src/main/java/io/jigson/core/flow/KeepFlow.java:97-106 | each listed item handled on its own |
| Keep.LaterOutcomes | src/main/java/io/jigson/core/flow/KeepFlow.java:96-107 | handling one item does not change the outcome of any later item |
| Keep.VisitKeeps | src/main/java/io/jigson/core/flow/KeepFlow.java:96-107 | the loop succeeds exactly when every item can be handled on its own, and then keeps exactly the positions whose outcome says keep, in order |
| Keep.VisitChanges | src/main/java/io/jigson/core/flow/KeepFlow.java:96-107 | a successful loop leaves each visited item as its outcome says and every other item untouched |
| Keep.VisitFirstFailure | src/main/java/io/jigson/core/flow/KeepFlow.java:96-107 | a failed loop reports the first failing item's error, every earlier item having succeeded |
| Keep.KeptOfListed | src/main/java/io/jigson/core/flow/KeepFlow.java:101-105 | every kept position is a listed one |
| Keep.KeptOf | src/main/java/io/jigson/core/flow/KeepFlow.java:96-107 | at most as many kept positions as listed, each one of the listed ones |
| Keep.KeptOfIsSubsequence | src/main/java/io/jigson/core/flow/KeepFlow.java:101-105 | the kept positions keep the visiting order and lie within the array |
| Keep.KeptItemsAt | src/main/java/io/jigson/core/flow/KeepFlow.java:101-109 | the kept positions read back out of the changed array give exactly the kept items |
| Keep.CurrentOf | src/main/java/io/jigson/core/flow/KeepFlow.java:31-47 | the walk stands on an element of the root copy or on a fresh array with one item per listed position |
| Keep.ObjectStep | src/main/java/io/jigson/core/flow/KeepFlow.java:57-89 | an object step that goes on leaves a cursor pointing into the rewritten root |
| Keep.VisitKeepsListed | src/main/java/io/jigson/core/flow/KeepFlow.java:96-109 | the positions a successful loop keeps lie in the array, in order |
| Keep.ArrayOutcome | src/main/java/io/jigson/core/flow/KeepFlow.java:38-109 | no kept item ends the walk with JSON null; otherwise the walk goes on with a cursor into the rewritten root |
| Keep.ArrayStep | src/main/java/io/jigson/core/flow/KeepFlow.java:41-110 | an array step that goes on leaves a cursor pointing into the rewritten root |
| Keep.Handle | src/main/java/io/jigson/core/flow/KeepFlow.java:54-64 | a step that goes on leaves a cursor pointing into the rewritten root |
| Keep.FlowStep | src/main/java/io/jigson/core/flow/KeepFlow.java:34-49 | one turn of the flow loop: a failure propagates, a JSON null result is returned, otherwise the walk goes on over the rest of the tokens |
| Keep.FlowFrom | src/main/java/io/jigson/core/flow/KeepFlow.java:34-51 | the walk ends with the rewritten root at a blank path or when the current element is JSON null |
| Keep.KeepAll | src/main/java/io/jigson/core/flow/KeepFlow.java:28-52 | on JSON null or a blank first path the copy of the input comes back unchanged |
| Keep.WrittenBack | src/main/java/io/jigson/core/flow/KeepFlow.java:41-46 | an array in the document is replaced by its kept items, in order; a fresh array keeps its items (only in-place changes to its objects show) |
| Keep.PrimitiveIsIllegal | src/main/java/io/jigson/core/flow/KeepFlow.java:61-62 | a segment applied to a primitive fails with IllegalArgument |
| Keep.PlainSegmentOnObject | src/main/java/io/jigson/core/flow/KeepFlow.java:82-87 | a segment without a criterion changes nothing: the walk moves to the property, or ends with JSON null when the property is absent or null |
| Keep.CriterionSegmentOnObject | src/main/java/io/jigson/core/flow/KeepFlow.java:70-80 | a criterion segment rewrites the object in place: the walk moves to the property, which holds the filtered value, or ends with JSON null; every other property keeps its value |
| Keep.ArraySegmentInDocument | src/main/java/io/jigson/core/flow/KeepFlow.java:41-110 | an array in the document fails exactly when one of its objects cannot be handled; otherwise it now holds the kept items in order, and the walk ends with JSON null when there are none |
| Keep.ArraySegmentOnFreshArray | src/main/java/io/jigson/core/flow/KeepFlow.java:41-110 | a fresh array is filtered without reaching the document: the array it came from keeps its length, listed items as handleObject left them, the others untouched; the walk goes on over the kept positions |
| Keep.FreshArrayWritten | src/main/java/io/jigson/core/flow/KeepFlow.java:41-110 | on a fresh array the step is the loop's result: it stops exactly when nothing is kept, and otherwise the source array holds the loop's items |
| Keep.HandleKeepsKind | src/main/java/io/jigson/core/flow/KeepFlow.java:54-64 | a step that goes on leaves the document of the same kind |
| Keep.ObjectStepKeepsKind | src/main/java/io/jigson/core/flow/KeepFlow.java:66-89 | an object step that goes on leaves the document of the same kind |
| Keep.ArrayStepKeepsKind | src/main/java/io/jigson/core/flow/KeepFlow.java:41-46 | an array step that goes on leaves the document of the same kind |
| Keep.FlowKeepsKind | src/main/java/io/jigson/core/flow/KeepFlow.java:28-52 | a keep query yields JSON null or a document of the same kind as the one it started from |
| Keep.KeepingAllIsIdentity | src/main/java/io/jigson/core/flow/KeepFlow.java:28-87 | a one-segment query whose step leaves the root object unchanged returns that object |
| Keep.ObjectStepGoesOn | src/main/java/io/jigson/core/flow/KeepFlow.java:66-89 | an object step whose handleObject yields a value writes the handled object back and moves to the property |
| Keep.ObjectKeptWhole | src/main/java/io/jigson/core/flow/KeepFlow.java:66-89 | a step whose handleObject leaves the root object unchanged goes on from that same object |
| Keep.HandleArray | src/main/java/io/jigson/core/flow/KeepFlow.java:91-110 | the loop method computes exactly the visit its specification describes |
| Keep.HandleCurrent | src/main/java/io/jigson/core/flow/KeepFlow.java:54-64 | the method computes exactly the step its specification describes |
| Keep.KeepFlow.Over | src/main/java/io/jigson/core/flow/KeepFlow.java:20-21 | the flow holds the query and the context it is given |
| Keep.KeepFlow.Advance | src/main/java/io/jigson/core/flow/KeepFlow.java:36-48 | one turn of the loop leaves the walk over the remaining tokens equal to the walk from where it began, and reads the next segment when the walk goes on |
| Keep.KeepFlow.Flow | src/main/java/io/jigson/core/flow/KeepFlow.java:28-52 | the loop returns exactly the walk over the unread tokens starting on the root copy; the tokens are unchanged |
| Keep.NewKeepFlow | src/main/java/io/jigson/core/flow/KeepFlow.java:23-26 | the flow reads a fresh fork of the unread tokens; EndOfQuery exactly when none is left |
| JsonValues.Get | src/main/java/io/jigson/utils/JsonUtils.java:42 | `JsonObject.get`: a value exactly when some member has that name, and then that member's value |
| JsonValues.Put | src/main/java/io/jigson/utils/JsonUtils.java:79 | `JsonObject.add`: an existing name keeps its place and the member count; a new one is appended |
| JsonValues.Remove | src/main/java/io/jigson/utils/JsonUtils.java:81 | `JsonObject.remove`: no member is added, and an absent name leaves the object as it was |
| JsonValues.GetPut | src/main/java/io/jigson/utils/JsonUtils.java:79 | after an add the name holds the new value and every other name keeps its value |
| JsonValues.PutGetsValue | src/main/java/io/jigson/utils/JsonUtils.java:79 | after an add the name holds the new value |
| JsonValues.PutKeepsOthers | src/main/java/io/jigson/utils/JsonUtils.java:79 | an add under one name leaves every other name's value alone |
| JsonValues.GetRemove | src/main/java/io/jigson/utils/JsonUtils.java:81 | after a remove the name is absent and every other name keeps its value |
| JsonValues.PutKeepsNames | src/main/java/io/jigson/utils/JsonUtils.java:79 | an add keeps the member names and their order, appending a new name at the end |
| JsonValues.PutKeepsUnique | src/main/java/io/jigson/utils/JsonUtils.java:79 | an add keeps member names unique |
| JsonValues.RemoveKeepsUnique | src/main/java/io/jigson/utils/JsonUtils.java:81 | a remove keeps names unique and keeps only members that were there, minus the removed name |
| JsonValues.PutSame | src/main/java/io/jigson/utils/JsonUtils.java:79 | adding back the value a name already holds changes nothing |
| JsonValues.AtUpdate | src/main/java/io/jigson/core/flow/KeepFlow.java:30-31 | a change made in place at a position of the copied document is seen at that position |
| JsonValues.UpdateKeepsKind | src/main/java/io/jigson/core/flow/KeepFlow.java:30-31 | replacing an element by one of its own kind leaves the document of its own kind |
| JsonValues.UpdateKeepsPrefix | src/main/java/io/jigson/core/flow/KeepFlow.java:30-31 | after a change below a position, that position still exists |
| JsonValues.UpdateSame | src/main/java/io/jigson/core/flow/KeepFlow.java:30-31 | writing an element back where it already is changes nothing |
| JsonValues.AtAppend | src/main/java/io/jigson/core/flow/KeepFlow.java:47 | walking a path and then more steps is walking the joined path |
| JsonValues.AtMember | src/main/java/io/jigson/core/flow/KeepFlow.java:86 | one more step by name from an object reaches the member |
| Strings.TrimStart | src/main/java/io/jigson/core/flow/ExpressionFlow.java:84 | `String.trim` from the front: a suffix of the text, everything dropped is at or below U+0020 and the result does not start with such a character |
| Strings.TrimEnd | src/main/java/io/jigson/core/flow/ExpressionFlow.java:84 | `String.trim` from the back: a prefix of the text, everything dropped is at or below U+0020 and the result does not end with such a character |
| Strings.TrimIsInfix | src/main/java/io/jigson/core/flow/ExpressionFlow.java:84-92 | the trimmed text is an infix of the text with only trimmable characters outside it and no trimmable character at either end |
| Strings.TrimIdempotent | src/main/java/io/jigson/json/expression/JsonExpression.java:39 | trimming twice is trimming once |
| Strings.SingleDigit | src/main/java/io/jigson/core/flow/ExpressionFlow.java:85 | a single digit is numeric and reads as its own value |
| Strings.NatToString | src/main/java/io/jigson/utils/PathUtils.java:36 | a decimal rendering is a digit string without leading zeros |
| Strings.NatToStringRoundTrip | src/main/java/io/jigson/utils/PathUtils.java:36 | reading a rendered number back gives the number |
| Strings.ParseInt | src/main/java/io/jigson/utils/PathUtils.java:36 | `Integer.parseInt`: a digit string up to the int maximum reads as its value, a larger one and any text that is not an optionally signed digit string are NumberFormat errors, and every result fits 32 bits |
| Strings.ParseIntRoundTrip | src/main/java/io/jigson/core/flow/Slice.java:54-58 | `Integer.parseInt` reads back every 32-bit int as rendered |
| Strings.Abs32 | src/main/java/io/jigson/core/flow/Slice.java:54-58 | `Math.abs` on an int: the absolute value, except that the int minimum stays negative |
| Strings.JavaRem | src/main/java/io/jigson/config/Context.java:117 | Java's `%` takes the dividend's sign and stays below the divisor in magnitude |
| Strings.JavaDivRem | src/main/java/io/jigson/config/Context.java:117 | Java's quotient and remainder put the dividend back together |
| Strings.IndexOf | src/main/java/io/jigson/utils/PathUtils.java:44-45 | `String.indexOf`: the first position of the character, -1 exactly when it does not occur |
| Strings.LastIndexOf | src/main/java/io/jigson/core/flow/ExpressionFlow.java:59 | `String.lastIndexOf`: a position where the text occurs with none later, -1 exactly when it does not occur |
| Strings.RunLength | src/main/java/io/jigson/json/expression/JsonExpression.java:75 | the longest separator-free prefix |
| Strings.SplitOn | src/main/java/io/jigson/json/expression/JsonExpression.java:75 | `StringUtils.split`: pieces that are non-empty and hold no separator |
| Strings.SplitOnKeepsEverythingElse | src/main/java/io/jigson/json/expression/JsonExpression.java:75 | the pieces joined back are the text without its separators |
| Strings.RemoveSpaces | src/main/java/io/jigson/json/expression/JsonPredicate.java:91 | `replace(" ", "")` leaves no space and never lengthens the text |

## Left out

- Pipeline plumbing (`JsonPipe`, `JoinPipe`, `ContextJoinPipe`, `Pipe`, `Sink`, `ContextFlow`, `ProcessingPipe`, `Plugin`, `JsonPlugin`): these wrap function objects. Each flow is modelled directly; the four-way split on element kind that `ProcessingPipe` builds is a `match`.
- The `Jigson.java` facade and its prefix dispatch (`@`, `#`, `?`): it calls constructors that the flow classes here do not have, and the query table has no `#` pattern. The flows are modelled from their own classes.
- `JigsonContext`, `PluginContext` and the thread-local `JigsonConfigHolder`: the settings a flow reads are passed in explicitly as a `Settings.Snapshot`. AveragePlugin's snapshot of the configuration is a parameter.
- `JigsonConfig` and `Context` are twins with nested `ArraysConfig`/`NumbersConfig` (`ArraysContext`/`NumberContext`) builders. One class, `Settings.Context`, models both. Each setter returns the same object, so the chaining methods return `this`. `PluginsConfig.and()` and the other back-links to the enclosing builder only return an object and are not modelled.
- `Slice.getEndIndex()` without an argument returns the raw end bound. That bound is the `endIndex` field of `Slices.Slice`, read directly.
- The values of `NumberUtils.MIN_VALUE` and `MAX_VALUE` are not modelled. Min and max take the sentinel as a parameter (`Sentinels`), and the lemmas about them hold for every sentinel (`Aggregates.ExtremeExamples`: every sentinel beyond the ages).
- Custom plugin flows are opaque Java objects. A custom plugin's behaviour is a function parameter of `Plugins.Run`.
- The iteration order of the `HashMap`/`HashSet` behind the plugin registry and the router is not specified by Java. Plugins.Router.constructor states only that the rules list every registered plugin once, and `Plugins.Dispatch` holds for every order. RouteToOnlyCandidate and RouterAgreesWithChain show that the order does not matter when one plugin accepts a name.
- Gson itself: the parsing of text into a tree, `deepCopy`, `getAsBigDecimal` and `getAsString`. The tree is a value, so a deep copy is the value itself. A primitive keeps its text. `getAsBigDecimal` is `DecimalText.Parse`. `getAsString` is `Expressions.ElementString`.
- The Java regex engine: each pattern of `TokenPattern` and `CriterionUtils` is a small hand-written matcher (`Tokens.MatchLength`, `Paths.IsCriterion`).
- Primitives are kept as their text. Booleans and numbers are not told apart from strings beyond that text.
- Keep.KeepingAllIsIdentity: stated for a query of one segment on an object root only; longer queries would need the identity at every level.
- Fetch.PropertyByPathAgrees: relates the two lookups only where the property is present, or where both succeed. Where it is absent, the fetch lookup dereferences a Java null and the JsonUtils lookup reads JSON null, so they differ by design.
- Plugins.Router.constructor: the order of the routing rules is left open, as the `HashSet` iteration order is.
- Aggregates.Length: a primitive's length is counted in characters (code points), where Java's `String.length()` counts UTF-16 code units. The two differ for characters outside the Basic Multilingual Plane: `"😀"` has length 2 in Java and 1 here.
- Strings.IsNumeric: only the ASCII digits `0`-`9` count as digits. `StringUtils.isNumeric`, `Integer.parseInt` and `new BigDecimal(..)` also accept the other Unicode decimal digits (Arabic-Indic `١٢`, for instance), so for such texts the source takes the numeric path where the model does not. `Strings.IsDigit`, `Strings.DigitsValue` and `Strings.ParseInt` share this restriction.
- Comparisons.Holds: inherits the ASCII-only digit test above. An operand written in non-ASCII decimal digits is compared as text by `=`/`!=` and rejected by the orderings, where Java would compare it as a number.
- The code of `CountFlow`, `SizeFlow` and `MinFlow` (reached by `FunctionFlowDispatcher`) and of `MaxPlugin` (registered by `PluginsConfig`) is not modelled. Each is assumed to behave as its counterpart and is modelled as it: `CountPlugin`, `SizePlugin`, `MaxFlow` with the opposite direction, and `MinPlugin` with the opposite direction.
- The code of the classes below is not modelled either. Each is assumed to behave as its documentation, the code that creates and calls it, and the tests that exercise it describe (`EqPredicateTest`, `KeepMatchingAndPrimitivesStrategyTest`, `FilterFlowTest`). Their counterparts `LessThanPredicate`, `OrExpression` and `OnlyMatchingStrategy` are modelled from their source.
  - the predicates `EqualPredicate`, `NotEqualPredicate`, `GreaterThanPredicate`, `GreaterThanEqualToPredicate` and `LessThanEqualToPredicate`, created by `PredicateFactory`;
  - the expressions `AndExpression`, `EqualExpression`, `NotEqualExpression`, `GreaterThanExpression`, `GreaterThanEqualToExpression`, `LessThanExpression` and `LessThanEqualToExpression`, created by `ExpressionFactory`;
  - `JsonObjectFilter`, used by the filter flows;
  - the array filters for `ALL_IF_ANY_MATCHING` and `KEEP_MATCHING_AND_PRIMITIVES`, created by `JsonFilterStrategyFactory`.
- Keep.KeepFlow.Flow: takes a `Json`, so a Java `null` passed to `KeepFlow.flow` (which fails on `deepCopy`) cannot be expressed.
