# JsonSchemaRoslyn lexer, modelled in Dafny

This project models the core of JsonSchemaRoslyn. The core is `JsonLexer`, a byte-at-a-time lexer for JSON-like text, together with the small structures it is built on:

- the ring buffers `CircularArray<T>`, `History<T>` and `BufferedState<T>`;
- the character accumulator `ReadCharBag`;
- the append-only `DiagnosticBag`;
- the byte-order-mark sniffer `FileStreamExtensions.GetEncoding`;
- the value types `TextSpan` and `Digit`.

The model follows the C# code, not its intended design. Its parts:

- **Lexer specification** (`lexer_spec.dfy`). `Step` gives what one pass of the `do … while` loop in `Lex` does from a cursor: the token it yields, the diagnostics it adds, and the cursor it leaves. `LexFrom` gives the whole run. Both are pure functions of the input bytes.
- **Lexer class** (`json_lexer.dfy`). `JsonLexer` is a class with the stream, the accumulator and the diagnostic bag as fields. Each `Extract*` method is a `while` loop with invariants. Each is proved to compute the run-end functions of the specification. `NextStep`, `Pass` and `Lex` are proved to compute `Step` and `LexFrom` exactly, including the diagnostics added to the bag.
- **Lexer properties** (`lexer_properties.dfy`). These are all-inputs lemmas about `LexFrom`:
  - exactly one end-of-file token, and it comes last;
  - where lexing stops;
  - strictly increasing start positions;
  - token texts are the bytes they were read from;
  - diagnostic spans lie inside the input;
  - no diagnostics exactly when every pass is clean;
  - one lemma per kind of pass, and for literals and letter runs its converse.
- **Scenarios** (`lexer_scenarios.dfy`). The exact output of `LexFrom` on concrete inputs. Several are shorter versions of the inputs of the repository's lexer tests.
- **Ring buffers** (`circular_array.dfy`, `history.dfy`, `buffered_state.dfy`).
  - `CircularArray` is a class over an `array<T>`. Its indexer reduces an index with C#'s truncating `%`.
  - `History` owns a ring and keeps a ghost sequence `Added` of everything added to it. `Current` and `Preceding` are proved against functions of `Added`.
  - `BufferedState` owns a `History` of capacity 2.
  - C# uses inheritance here; the model uses composition.
- **Other structures**:
  - `ReadCharBag` (`read_char_bag.dfy`) keeps its characters in an `array<char>` field. Each change replaces the array.
  - `DiagnosticBag` (`diagnostics.dfy`) holds a sequence field.
  - The BOM sniffer (`encodings.dfy`) reads from a `ByteStream` class (`streams.dfy`). `ByteStream` stands for the .NET `Stream`: a byte sequence with a cursor.
  - `TextSpan` (`text_span.dfy`) and `Digit` (`digit.dfy`) are datatypes.
- **Support**:
  - `char_classes.dfy`: .NET's `char.IsLetter`, `char.IsWhiteSpace` and `char.IsDigit` on the only characters the lexer ever sees. Those are a byte value U+0000..U+00FF cast to `char`, or U+FFFF, the cast of `ReadByte`'s -1.
  - `syntax.dfy`: token kinds and tokens.
  - `exceptions.dfy`: one tag per exception class.
  - `wrappers.dfy`: `Option`, `Result`, `Outcome`.

A thrown exception is a `Failure`/`Fail` result carrying the exception's tag. A C# reference that may be null is an `Option` or a nullable class type. C# `default(T)` has no Dafny expression, so `CircularArray` and `History` take the default value as a constructor argument. The lexer uses `'\0'`, which is `default(char)`.

### Where the code and the intended design disagree

The model follows the code in each case below.

- **Unterminated literal or letter run.** A literal or a letter run that the input ends inside yields no token at all: the `catch` blocks `continue` the loop (`JsonLexer.cs:141-146`, `177-182`). Only a diagnostic is added. Lexing then ends with an end-of-file token at the end of the input (`CutShortPassEndsRun`).
- **Bytes that end a run.** The delimiter that ends a letter run (`:`, `,` or whitespace) and the byte after a digit run are consumed and appear in no token. Only a whitespace run puts the next byte back.
- **Texts do not rebuild the input.** The concatenated token texts do not reproduce the input, because delimiters and closing quotes are dropped. What is proved instead is that each token's text is the input bytes at its position (`LexTextsMatchInput`).
- **Words other than true, false and null.** Any other word is an `Unknown` token with an unknown-character diagnostic, not an identifier token.
- **Closing a literal.** A literal opens on `'` or `"` but only `"` closes it.
  - A quote closes it unless the last character is a backslash that is not itself preceded by one.
  - The code keeps a history of three characters but looks back at two only. So a quote after three backslashes closes the literal (`ThreeBackslashesClose`).
- **Diagnostic order.** The bag enumerates diagnostics in insertion order, not sorted by span, and it accepts a null diagnostic.
- **Empty content.** The content constructor accepts an empty string and rejects only null.
- **Unreachable null-encoding check.** `GetEncoding` never returns null, so the file constructor's `EncodingInfosNullException` branch (`JsonLexer.cs:84-87`) cannot be reached. `FromFile` has no such failure.
- **Token kinds.** `SyntaxKind` is the union of the enumeration's names and the names the lexer uses: the brackets, `Literal`, `Boolean` and `Null`.
- **The UTF-32 signature.** The sniffer treats `00 00 FE` as UTF-32. It tests `FF FE` before anything longer, so `FF FE 00 00` is reported as UTF-16LE (`Utf16Boms`).

## Model

| member | source | states |
|---|---|---|
| LexerSpec.WhitespaceRunEnd | JsonSchemaRoslyn.Core/JsonLexer.cs:228-240 | A whitespace run stops at the first byte that is not `char.IsWhiteSpace`, or at the end; every byte before it is whitespace |
| LexerSpec.LiteralRunEnd | JsonSchemaRoslyn.Core/JsonLexer.cs:247-271 | A literal stops at the first `"` whose preceding text passes the escape test, or at the end of the input when there is none |
| LexerSpec.KeywordRunEnd | JsonSchemaRoslyn.Core/JsonLexer.cs:278-291 | A letter run stops at the first `:`, `,` or whitespace, or at the end; no byte before it is a delimiter |
| LexerSpec.DigitRunEnd | JsonSchemaRoslyn.Core/JsonLexer.cs:297-305 | A digit run stops at the first byte that is not an ASCII digit, or at the end |
| LexerSpec.Step | JsonSchemaRoslyn.Core/JsonLexer.cs:99-219 | One pass either ends lexing and moves the cursor by at most one, or moves it forward inside the input; a yielded token starts at the cursor; a pass without a token leaves the cursor at the end of the input |
| LexerSpec.LexFrom | JsonSchemaRoslyn.Core/JsonLexer.cs:93-223 | A run yields at least one token (its properties are the LexerProperties lemmas below) |
| JsonLexers.HistoryDecidesQuote | JsonSchemaRoslyn.Core/JsonLexer.cs:250-262 | Asking a three-slot history (default `'\0'`) for Current and Preceding(1) decides exactly the escape test QuoteCloses on the text read so far |
| JsonLexers.JsonLexer.Init | JsonSchemaRoslyn.Core/JsonLexer.cs:66-70 | A new lexer has an empty accumulator and an empty diagnostic bag |
| JsonLexers.JsonLexer.FromStream | JsonSchemaRoslyn.Core/JsonLexer.cs:33-43 | A null stream or `Stream.Null` throws ArgumentNullException and leaves the cursor alone; otherwise the BOM is sniffed, and the cursor and the encoding information are those of `Sniff` |
| JsonLexers.JsonLexer.FromContent | JsonSchemaRoslyn.Core/JsonLexer.cs:52-64 | Null content throws ArgumentException and nothing else does (an empty content is accepted); the stream holds the content, rewound to 0, and no BOM is sniffed |
| JsonLexers.JsonLexer.FromFile | JsonSchemaRoslyn.Core/JsonLexer.cs:45-90 | A null file throws ArgumentNullException, a missing one FileNotFoundException; an existing one always succeeds, with the file's bytes and the cursor and encoding that `Sniff` gives |
| JsonLexers.JsonLexer.NextStep | JsonSchemaRoslyn.Core/JsonLexer.cs:99-221 | One pass yields exactly Step's token, leaves the cursor at Step's next position, appends exactly Step's diagnostics to the bag, and leaves the accumulator empty |
| JsonLexers.JsonLexer.Scan | JsonSchemaRoslyn.Core/JsonLexer.cs:115-210 | The switch on the first character completes exactly when Step yields a token, and then kind, value, accumulated text and cursor are Step's (through Emit) with no diagnostic added; otherwise the cursor and added diagnostics are Step's |
| JsonLexers.JsonLexer.ScanLiteral | JsonSchemaRoslyn.Core/JsonLexer.cs:133-147 | The literal branch empties the accumulator, so the opening quote is not in the text; it completes exactly when LiteralStep yields a token, and otherwise adds the never-closed diagnostic with the partial text |
| JsonLexers.JsonLexer.ScanKeyword | JsonSchemaRoslyn.Core/JsonLexer.cs:170-197 | The letter branch completes exactly when KeywordStep yields a token, with its kind and value; otherwise it adds the keyword diagnostic over the word read |
| JsonLexers.JsonLexer.ExtractWhitespace | JsonSchemaRoslyn.Core/JsonLexer.cs:225-241 | The cursor ends at WhitespaceRunEnd (the byte that ends the run is put back), and the accumulator grows by exactly the bytes consumed |
| JsonLexers.JsonLexer.QuoteClosesLiteral | JsonSchemaRoslyn.Core/JsonLexer.cs:250-262 | The nested Current/Preceding(1) test on the history returns QuoteCloses of everything added to it |
| JsonLexers.JsonLexer.ReadLiteralChar | JsonSchemaRoslyn.Core/JsonLexer.cs:249-270 | One turn of the literal loop stops exactly at the end of the input or at a closing quote (consumed); otherwise it appends the character to both the accumulator and the history, which stay equal |
| JsonLexers.JsonLexer.ExtractLiteral | JsonSchemaRoslyn.Core/JsonLexer.cs:243-272 | Closes exactly when LiteralRunEnd is inside the input, consuming the closing quote; the accumulator holds exactly the text between the delimiters; a false result is the EndOfFileExtractLiteralException |
| JsonLexers.JsonLexer.ExtractKeyword | JsonSchemaRoslyn.Core/JsonLexer.cs:274-292 | Closes exactly when KeywordRunEnd is inside the input, consuming the delimiter; the accumulator grows by the run's bytes, never by the delimiter or the end sentinel |
| JsonLexers.JsonLexer.ExtractDigit | JsonSchemaRoslyn.Core/JsonLexer.cs:294-306 | The accumulator grows by the digit run; the byte after the run is consumed when there is one |
| JsonLexers.JsonLexer.Pass | JsonSchemaRoslyn.Core/JsonLexer.cs:96-222 | One turn of the loop keeps "yielded so far + LexFrom(cursor) = whole output" for tokens and diagnostics; when done the yielded tokens and added diagnostics are the whole output, and otherwise the cursor has moved forward inside the input |
| JsonLexers.JsonLexer.Lex | JsonSchemaRoslyn.Core/JsonLexer.cs:93-223 | Lex returns exactly LexFrom's tokens from the starting cursor and appends exactly LexFrom's diagnostics to the bag |
| LexerProperties.StopPosition | JsonSchemaRoslyn.Core/JsonLexer.cs:221-222 | The pass that ends a run lies between the starting cursor and the end of the input (or the cursor, if already past it) and yields an end-of-file token |
| LexerProperties.LastTokenIsStopToken | JsonSchemaRoslyn.Core/JsonLexer.cs:221-222 | The last token of a run is the token of the pass at StopPosition |
| LexerProperties.LexNoEarlyEndOfFile | JsonSchemaRoslyn.Core/JsonLexer.cs:221-222 | No token before the last one is an end-of-file token |
| LexerProperties.LexEndsWithOneEndOfFile | JsonSchemaRoslyn.Core/JsonLexer.cs:96-222 | A run ends with an end-of-file token and contains no other |
| LexerProperties.LexTokensStartAfterCursor | JsonSchemaRoslyn.Core/JsonLexer.cs:101 | Every token starts at or after the cursor lexing started from |
| LexerProperties.LexTokensStartInsideInput | JsonSchemaRoslyn.Core/JsonLexer.cs:101-113 | Every token but the last starts inside the input |
| LexerProperties.LexPositionsIncrease | JsonSchemaRoslyn.Core/JsonLexer.cs:99-222 | Token start positions strictly increase along a run |
| LexerProperties.StepEndsAtEndOrNul | JsonSchemaRoslyn.Core/JsonLexer.cs:105-120 | A pass ends lexing exactly at the end of the input (token with null text at the cursor) or on a 0x00 byte (token with text "\0") |
| LexerProperties.LexStopsAtEndOrNul | JsonSchemaRoslyn.Core/JsonLexer.cs:105-120 | The final end-of-file token is either the true end, with null text at the input length, or a 0x00 byte in the input, with text "\0" |
| LexerProperties.LexWithoutNulReachesEnd | JsonSchemaRoslyn.Core/JsonLexer.cs:105-109 | Input without a 0x00 byte is lexed to its end: the last token is EndOfFile with null text at the input length |
| LexerProperties.StepDiagnosticsInsideInput | JsonSchemaRoslyn.Core/JsonLexer.cs:141-217 | Every diagnostic one pass adds spans bytes of the input at or after the cursor, with a non-negative length |
| LexerProperties.LexDiagnosticsInsideInput | JsonSchemaRoslyn.Core/JsonLexer.cs:141-217 | Every diagnostic of a run spans bytes of the input at or after the starting cursor |
| LexerProperties.StepTextMatchesInput | JsonSchemaRoslyn.Core/JsonLexer.cs:212 | A pass's token text is the input bytes at its start position (after the opening quote for a literal) |
| LexerProperties.LexTextsMatchInput | JsonSchemaRoslyn.Core/JsonLexer.cs:212-221 | Every token text of a run is the input bytes it was read from |
| LexerProperties.StepDiagnostics | JsonSchemaRoslyn.Core/JsonLexer.cs:141-217 | A pass adds no diagnostic exactly when it yields a token that is not Unknown |
| LexerProperties.NoDiagnosticsIffAllPassesClean | JsonSchemaRoslyn.Core/JsonLexer.cs:141-217 | A run adds no diagnostic if and only if every pass yields a token that is not Unknown |
| LexerProperties.SingleCharacterPass | JsonSchemaRoslyn.Core/JsonLexer.cs:121-162 | Each of `{ } [ ] - , / \ :` is a one-character token of its kind, with no diagnostic, and the cursor moves by one |
| LexerProperties.UnknownCharacterPass | JsonSchemaRoslyn.Core/JsonLexer.cs:204-217 | A byte no branch knows is an Unknown token of its own, with exactly one unknown-character diagnostic of span (start, 1) |
| LexerProperties.WhitespacePass | JsonSchemaRoslyn.Core/JsonLexer.cs:163-169 | A whitespace pass is the longest whitespace run, its text exactly the bytes consumed, and the byte after it is left unread |
| LexerProperties.ClosedLiteralPass | JsonSchemaRoslyn.Core/JsonLexer.cs:133-147 | A literal token's text is everything between the opening delimiter and the first closing `"` that QuoteCloses accepts, both delimiters excluded |
| LexerProperties.UnterminatedLiteralPass | JsonSchemaRoslyn.Core/JsonLexer.cs:141-146 | A literal the input ends inside yields no token, one never-closed diagnostic spanning the partial text, and the cursor at the end of the input |
| LexerProperties.LiteralClosesAt | JsonSchemaRoslyn.Core/JsonLexer.cs:133-147 | Conversely, a literal whose first accepted closing `"` is at e is the Literal token of the bytes between the delimiters, with no diagnostic, and lexing goes on after the quote |
| LexerProperties.LiteralNeverCloses | JsonSchemaRoslyn.Core/JsonLexer.cs:141-146 | Conversely, a literal no quote closes yields no token, only the never-closed diagnostic over its text, and the cursor at the end of the input |
| LexerProperties.CutShortPassEndsRun | JsonSchemaRoslyn.Core/JsonLexer.cs:141-146 | After a pass the input ends inside, the run goes on to a single end-of-file token at the end of the input |
| LexerProperties.KeywordPass | JsonSchemaRoslyn.Core/JsonLexer.cs:170-197 | A letter run's text is every byte up to KeywordRunEnd, none of them a `:`, `,` or whitespace, and the delimiter after it is consumed; the token is Boolean exactly for true/false in any case (value true exactly for true), Null exactly for null, Unknown with a diagnostic otherwise |
| LexerProperties.UnterminatedKeywordPass | JsonSchemaRoslyn.Core/JsonLexer.cs:177-182 | A letter run yields no token exactly when no `:`, `,` or whitespace follows it before the end; then one keyword diagnostic spans it from its first letter to the end, and the cursor is at the end of the input |
| LexerProperties.KeywordEndsAt | JsonSchemaRoslyn.Core/JsonLexer.cs:170-197 | Conversely, a letter run whose first delimiter is at e is the token of the bytes before it, classified as true/false/null/other, and lexing goes on after the delimiter |
| LexerProperties.DigitPass | JsonSchemaRoslyn.Core/JsonLexer.cs:198-203 | A digit run is a Digit token whose text is the input bytes up to DigitRunEnd, all digits, with a non-digit (or the end) after it; its value is the decimal number of the text; the byte after the run is consumed |
| LexerScenarios.FiveSpaces | JsonSchemaRoslyn.Core.Tests/JsonLexerTest.cs:111-124 | Five spaces lex to one whitespace token of length 5 and the end of input, with no diagnostic |
| LexerScenarios.LiteralThenSpaces | JsonSchemaRoslyn.Core.Tests/JsonLexerTest.cs:126-139 | `"Test"` and five spaces lex to a literal, a whitespace token and the end of input, with no diagnostic |
| LexerScenarios.TwoLiterals | JsonSchemaRoslyn.Core.Tests/JsonLexerTest.cs:126-139 | Two literals separated by spaces lex without diagnostic, the last token being the end of input |
| LexerScenarios.PropertyColonString | JsonSchemaRoslyn.Core.Tests/JsonLexerTest.cs:49-62 | A property, a colon, a space and a pattern: token texts `pattern`, `:`, ` `, the pattern with its backslashes kept, and the fifth token is the end of input |
| LexerScenarios.MissingEndOfString | JsonSchemaRoslyn.Core.Tests/JsonLexerTest.cs:64-75 | Without the closing quote the pattern yields no token and the only diagnostic is the never-closed one |
| LexerScenarios.MissingQuoteAfterName | JsonSchemaRoslyn.Core.Tests/JsonLexerTest.cs:77-90 | With the quote after the name missing, the first diagnostic is an unknown character and the last is the end of input inside a letter run |
| LexerScenarios.ObjectWithDoubleBackslash | JsonSchemaRoslyn.Core.Tests/JsonLexerTest.cs:92-109 | A pattern ending in two escaped backslashes is closed by the following quote, and the object lexes without diagnostic |
| LexerScenarios.EscapedQuote | JsonSchemaRoslyn.Core/JsonLexer.cs:250-262 | A quote after a single backslash stays in the literal's text |
| LexerScenarios.ThreeBackslashesClose | JsonSchemaRoslyn.Core/JsonLexer.cs:250-262 | A quote after three backslashes closes the literal; the rest is a letter run the input ends inside |
| LexerScenarios.BooleanWords | JsonSchemaRoslyn.Core/JsonLexer.cs:184-192 | `TRUE,false ` lexes to two Boolean tokens with values true and false; each delimiter is consumed |
| LexerScenarios.NullAndUnknownWords | JsonSchemaRoslyn.Core/JsonLexer.cs:193-217 | `Null:nul ` lexes to a Null token and an Unknown token with its diagnostic |
| LexerScenarios.DigitRun | JsonSchemaRoslyn.Core/JsonLexer.cs:198-203 | `123,` lexes to a Digit token of value 123, the comma consumed, then the end of input |
| LexerScenarios.NulStops | JsonSchemaRoslyn.Core/JsonLexer.cs:117-120 | A 0x00 byte ends lexing with an end-of-file token of text "\0"; what follows is never read |
| CharClasses.CharOf | JsonSchemaRoslyn.Core/JsonLexer.cs:112 | A byte read is used as the character of the same code, never decoded |
| CharClasses.ReadChar | JsonSchemaRoslyn.Core/JsonLexer.cs:230 | The cast of ReadByte's result is the end sentinel U+FFFF exactly for -1, and the byte's character otherwise |
| CharClasses.SentinelIsNoClassMember | JsonSchemaRoslyn.Core/JsonLexer.cs:230-237 | The end sentinel is neither whitespace, a letter nor a digit, so no scan accumulates it |
| Histories.BackSlotIsResidue | JsonSchemaRoslyn.Core/Arrays/History.cs:79 | The indexer reaches, from `pointer - 1 - k`, the slot k + 1 places behind the insert index |
| Histories.CountGrowsThenSaturates | JsonSchemaRoslyn.Core/Arrays/History.cs:59-62 | Count grows by one per addition until it reaches the capacity, then stays there |
| Histories.History.constructor | JsonSchemaRoslyn.Core/Arrays/History.cs:26-30 | A new history holds nothing, with the given capacity and the insert index at 0 |
| Histories.History.Create | JsonSchemaRoslyn.Core/Arrays/CircularArray.cs:47-55 | A size that is not positive throws ArgumentOutOfRangeException; otherwise an empty history of that capacity |
| Histories.History.Count | JsonSchemaRoslyn.Core/Arrays/History.cs:33 | Count is the number of additions, capped at the capacity |
| Histories.History.Add | JsonSchemaRoslyn.Core/Arrays/History.cs:39-63 | The item is recorded as the latest addition, the insert index stays in [0, Capacity), Count grows up to the capacity, and the ring invariant is kept |
| Histories.History.Current | JsonSchemaRoslyn.Core/Arrays/History.cs:36 | Current is the latest item added, or the default value before any addition (index -1 wraps to a never-written slot) |
| Histories.History.Preceding | JsonSchemaRoslyn.Core/Arrays/History.cs:66-80 | k <= 0 throws ArgumentOutOfRangeException; k >= Count gives the default value; otherwise the item added k additions before Current |
| Histories.History.Enumerate | JsonSchemaRoslyn.Core/Arrays/CircularArray.cs:61-64 | Enumeration yields the physical slots in storage order |
| CircularArrays.CsRemainder | JsonSchemaRoslyn.Core/Arrays/CircularArray.cs:33 | C#'s `%` on a positive divisor: the remainder has the sign of the dividend and is Dafny's remainder for a non-negative one |
| CircularArrays.SlotIsResidue | JsonSchemaRoslyn.Core/Arrays/CircularArray.cs:33-34 | Every int index, negatives included, maps through `((i % c) + c) % c` to its residue modulo c, in [0, c) |
| CircularArrays.SlotCongruence | JsonSchemaRoslyn.Core/Arrays/CircularArray.cs:33-34 | Two indexes reach the same slot exactly when they are congruent modulo the capacity |
| CircularArrays.CircularArray.constructor | JsonSchemaRoslyn.Core/Arrays/CircularArray.cs:22-25 | A new ring has the given number of slots, each holding the default value |
| CircularArrays.CircularArray.Create | JsonSchemaRoslyn.Core/Arrays/CircularArray.cs:47-55 | A size that is not positive throws ArgumentOutOfRangeException; otherwise Capacity equals the size and every slot is the default |
| CircularArrays.CircularArray.Get | JsonSchemaRoslyn.Core/Arrays/CircularArray.cs:33 | The getter reads the slot of the index's residue |
| CircularArrays.CircularArray.Set | JsonSchemaRoslyn.Core/Arrays/CircularArray.cs:34 | The setter changes only the residue's slot; every congruent index then reads the value set; Capacity is unchanged |
| CircularArrays.CircularArray.SetSize | JsonSchemaRoslyn.Core/Arrays/CircularArray.cs:47-55 | A size that is not positive throws and changes nothing; otherwise a fresh array of that size, all default |
| CircularArrays.CircularArray.Clear | JsonSchemaRoslyn.Core/Arrays/CircularArray.cs:38-41 | Every slot is reset to the default value and Capacity is unchanged |
| CircularArrays.CircularArray.Enumerate | JsonSchemaRoslyn.Core/Arrays/CircularArray.cs:61-64 | Enumeration yields exactly Capacity items, the slots in storage order |
| BufferedStates.BufferedState.constructor | JsonSchemaRoslyn.Core/Arrays/BufferedState.cs:11-14 | A new state is an empty history of capacity 2 |
| BufferedStates.BufferedState.Capacity | JsonSchemaRoslyn.Core/Arrays/BufferedState.cs:11-13 | The capacity is always 2 |
| BufferedStates.BufferedState.Add | JsonSchemaRoslyn.Core/Arrays/History.cs:39-63 | Adding records the item as the latest and keeps capacity 2 |
| BufferedStates.BufferedState.Current | JsonSchemaRoslyn.Core/Arrays/History.cs:36 | Current is the latest item, or the default before any addition |
| BufferedStates.BufferedState.Previous | JsonSchemaRoslyn.Core/Arrays/BufferedState.cs:17 | Previous is Preceding(1): the item before the latest, or the default while fewer than two items were added |
| BufferedStates.AddThree | JsonSchemaRoslyn.Core/Arrays/BufferedState.cs:17 | After one addition Previous is the default; after x1, x2, x3, Current is x3 and Previous is x2 |
| CharBags.ReadCharBag.constructor | JsonSchemaRoslyn.Core/ReadCharBag.cs:15 | A new bag holds no character |
| CharBags.ReadCharBag.FromCharBag | JsonSchemaRoslyn.Core/ReadCharBag.cs:19-27 | A null bag throws ArgumentNullException; otherwise a new bag with a new array and the same characters |
| CharBags.ReadCharBag.Add | JsonSchemaRoslyn.Core/ReadCharBag.cs:29-40 | The character is appended at the end of a new array; earlier characters are unchanged |
| CharBags.ReadCharBag.Dispose | JsonSchemaRoslyn.Core/ReadCharBag.cs:43-46 | Dispose leaves the bag empty |
| CharBags.ReadCharBag.Enumerate | JsonSchemaRoslyn.Core/ReadCharBag.cs:49-55 | Enumeration yields the characters in insertion order |
| CharBags.ReadCharBag.ToCharArray | JsonSchemaRoslyn.Core/ReadCharBag.cs:66-72 | The conversion to char[] is the bag's own array, or a new empty array for a null bag |
| CharBags.ReadCharBag.ToByteArray | JsonSchemaRoslyn.Core/ReadCharBag.cs:74-80 | The conversion to byte[] gives a new array of the character codes, throws OverflowException exactly when a code exceeds 255, and gives an empty array for a null bag |
| CharBags.ReadCharBag.ToString | JsonSchemaRoslyn.Core/ReadCharBag.cs:83-92 | The string is the characters in insertion order |
| CharBags.ReadCharBag.EmptyBag | JsonSchemaRoslyn.Core/ReadCharBag.cs:94-100 | The bag is left with zero characters |
| Diagnostics.DiagnosticBag.constructor | JsonSchemaRoslyn.Core/DiagnosticBag.cs:11-14 | A new bag holds nothing |
| Diagnostics.DiagnosticBag.AddDiagnostic | JsonSchemaRoslyn.Core/DiagnosticBag.cs:16-19 | Exactly one entry is appended at the end, null included; earlier entries are unchanged |
| Diagnostics.DiagnosticBag.Enumerate | JsonSchemaRoslyn.Core/DiagnosticBag.cs:22-25 | Enumeration yields the entries in insertion order |
| Diagnostics.InsertionOrderIsKept | JsonSchemaRoslyn.Core/DiagnosticBag.cs:11-25 | A new bag enumerates nothing; diagnostics added in descending span order, then a null, are enumerated as added, not sorted |
| Encodings.CreateNew | JsonSchemaRoslyn.Core/Extensions/EncodingInfos.cs:12-22 | A null encoding throws ArgumentNullException; otherwise the encoding and the BOM flag are stored |
| Encodings.BomBuffer | JsonSchemaRoslyn.Core/Extensions/FileStreamExtensions.cs:21-22 | The three-byte buffer holds the bytes read, then zeros for those not read |
| Encodings.BomBytes | JsonSchemaRoslyn.Core/Extensions/FileStreamExtensions.cs:22 | At most three bytes are read from the cursor |
| Encodings.GetEncoding | JsonSchemaRoslyn.Core/Extensions/FileStreamExtensions.cs:17-43 | A null stream throws ArgumentNullException; otherwise the result and the new cursor are those of `Sniff` on the stream's bytes and cursor |
| Encodings.SniffMatchesSignatures | JsonSchemaRoslyn.Core/Extensions/FileStreamExtensions.cs:25-41 | A BOM is reported exactly when the bytes from the cursor start with one of the five signatures, with that signature's encoding and every byte read left consumed; otherwise the default encoding without BOM and a cursor at 0; zero padding never completes a signature |
| Encodings.Utf8Bom | JsonSchemaRoslyn.Core/Extensions/FileStreamExtensions.cs:29-30 | EF BB BF is UTF-8 with BOM, and the cursor ends at 3 |
| Encodings.Utf16Boms | JsonSchemaRoslyn.Core/Extensions/FileStreamExtensions.cs:31-34 | FF FE is UTF-16LE and FE FF UTF-16BE whatever the third byte, which stays consumed; FF FE 00 00 is UTF-16LE |
| Encodings.NoBomRewinds | JsonSchemaRoslyn.Core/Extensions/FileStreamExtensions.cs:37-41 | An empty stream, or one whose first byte starts no signature, gives the default encoding without BOM and a cursor at 0 |
| TextSpans.TextSpan.End | JsonSchemaRoslyn.Core/TextSpan.cs:13 | End minus Length is Start: End is computed as a long, without wrap-around |
| TextSpans.WrapInt32 | JsonSchemaRoslyn.Core/TextSpan.cs:17 | The unchecked int subtraction: the result is an int congruent to the exact difference modulo 2^32, and equal to it when it fits |
| TextSpans.FromBounds | JsonSchemaRoslyn.Core/TextSpan.cs:15-19 | The span starts at the first bound; its length is the wrapped 32-bit difference of the bounds |
| TextSpans.FromBoundsRoundTrip | JsonSchemaRoslyn.Core/TextSpan.cs:13-19 | When the difference fits an int, Start is the first bound, Length the difference, and End the second bound |
| TextSpans.FromBoundsWrapsForWideBounds | JsonSchemaRoslyn.Core/TextSpan.cs:17 | FromBounds(int.MinValue, int.MaxValue) has length -1 and does not end at int.MaxValue |
| TextSpans.FromBoundsChecked | JsonSchemaRoslyn.Core/TextSpan.cs:15-19 | With a checked subtraction: throws OverflowException exactly when the difference does not fit, and otherwise ends exactly at the second bound |
| Digits.Digit.ToByte | JsonSchemaRoslyn.Core/Digit.cs:119-122 | The conversion to byte is the digit's value |
| Digits.Digit.CompareTo | JsonSchemaRoslyn.Core/Digit.cs:27-32 | Returns -1, 0 or 1 as the value is below, equal to or above the other's |
| Digits.Digit.CompareToObject | JsonSchemaRoslyn.Core/Digit.cs:15-25 | Null gives 1, a non-Digit throws ArgumentException, a Digit gives -1, 0 or 1 as this value is below, equal to or above the other |
| Digits.Digit.Equals | JsonSchemaRoslyn.Core/Digit.cs:41-44 | Equal exactly when the values are equal |
| Digits.Digit.EqualsObject | JsonSchemaRoslyn.Core/Digit.cs:34-39 | True exactly for a Digit of the same value; false for null and non-Digits |
| Digits.Digit.GetHashCode | JsonSchemaRoslyn.Core/Digit.cs:46-49 | The hash code is the value itself, in 0..9, so equal digits hash equally |
| Digits.CompareToAntisymmetric | JsonSchemaRoslyn.Core/Digit.cs:27-44 | CompareTo is antisymmetric and is 0 exactly when Equals holds |
| Digits.FromInt | JsonSchemaRoslyn.Core/Digit.cs:124-137 | The conversion from int succeeds exactly for 0..9; outside 0..255 Convert.ToByte throws OverflowException, 10..255 throw a bare Exception |
| Digits.ByteRoundTrip | JsonSchemaRoslyn.Core/Digit.cs:119-137 | Converting a digit to byte and back gives the same digit |
| Digits.TryParseByte | JsonSchemaRoslyn.Core/Digit.cs:78 | A parse succeeds only on a non-empty run of ASCII digits, with its decimal value; such a run succeeds exactly when its value is below 256 |
| Digits.Parse | JsonSchemaRoslyn.Core/Digit.cs:71-86 | As written: succeeds exactly when the text parses as a byte strictly between 0 and 9, and otherwise throws |
| Digits.DigitText | JsonSchemaRoslyn.Core/Digit.cs:51-54 | A digit's text is one ASCII digit character |
| Digits.DigitTextValue | JsonSchemaRoslyn.Core/Digit.cs:51-54 | A digit's text parses as a byte back to its value |
| Digits.ParseRejectsBounds | JsonSchemaRoslyn.Core/Digit.cs:78 | "0" and "9" fail to parse although 0 and 9 are digits the int conversion accepts |
| Digits.ParseInclusive | JsonSchemaRoslyn.Core/Digit.cs:76-86 | With the bounds compared inclusively: succeeds exactly when the text parses as a byte of at most 9 |
| Digits.ParseInclusiveRoundTrip | JsonSchemaRoslyn.Core/Digit.cs:51-86 | Every digit's text parses back to that digit |

## Left out

- Stream, file and `MemoryStream`/`StreamWriter` plumbing is not modelled; the source is a byte sequence with a cursor (`ByteStream`). `JsonLexer.Dispose` and the unused `encoding` parameter and `_position` field are left out too.
- FromContent takes the bytes the `StreamWriter` would write for the content string. The UTF-8 encoding of the string is not modelled.
- FromFile takes a `FileEntry`: the name, whether the file exists, and its bytes. Opening the file is I/O.
- The static lock in `ReadCharBag` is left out. The lexer is sequential.
- The lazy `yield return` of `Lex` is not modelled. `Lex` returns the whole token sequence at once, which is the same sequence a full enumeration gives.
- `Encoding` objects, including the platform-dependent `Encoding.Default`, are opaque tags. The lexer never decodes with them.
- `ScanKeyword`: `StringComparer.CurrentCultureIgnoreCase` is modelled as ASCII case folding (`EqualsIgnoreCase`).
- `Scan`: `BigInteger.Parse` of a digit run is modelled as the decimal value of the run (`DecimalValue`).
- `TryParseByte`: `Byte.TryParse` with `NumberStyles.Number` and the current culture is modelled as a plain run of ASCII digits. The signs, whitespace, group separators and decimal point that style allows are not modelled.
- `char.IsLetter` and `char.IsWhiteSpace` are explicit predicates over U+0000..U+00FF and U+FFFF, the only characters the lexer can see.
- Diagnostic message texts are reproduced, but `ToString` formatting is not.
- The `Number` class (`JsonLexer.cs:315-350`) is not part of this model: its lists are never set and its `ToString` throws.
- `Digit`'s `IConvertible` members, its format-provider `ToString` overloads and `GetTypeCode` are not modelled. They call into `Convert` and return floating-point values.
- `ReadCharBag.ToString` contains a `Debug.Assert` that is not modelled. It checks nothing in release builds.
- The interfaces `IHistory`, `ICircularArray`, `IBufferedState` and `ILexer` are not modelled. They add no behaviour.
- The lexer test at `JsonLexerTest.cs:32-47` reads an external file and measures time, so it has no scenario. The scenarios for `JsonLexerTest.cs:49-109` use shorter patterns than the tests.
- CircularArrays.Slot: index and capacity are unbounded integers. The source computes `((index % c) + c) % c` in 32-bit arithmetic, which overflows for a capacity above 2^30; that overflow is not modelled. The lexer's histories have capacity 3.
- `TextSpan.ToString` is not modelled. `TextSpan.Start` is a long in C# and an unbounded int here.
- LexerSpec.LexFrom: its own contract states only that a run yields a token. What the source promises about a run is stated by the LexerProperties lemmas, to keep the recursive function cheap to unfold.

## Findings

| source | as written | input that shows it | evidently intended | confidence | as-written member | corrected member |
|---|---|---|---|---|---|---|
| JsonSchemaRoslyn.Core/TextSpan.cs:17 | The length is `end - start` in unchecked 32-bit arithmetic, so it wraps when the bounds are far apart. | FromBounds(int.MinValue, int.MaxValue) has Length -1, so End is int.MinValue - 1, not int.MaxValue. | The span ends at `end`; an overflow is reported, not wrapped. | medium, not executed | TextSpans.FromBoundsWrapsForWideBounds | TextSpans.FromBoundsChecked |
| JsonSchemaRoslyn.Core/Digit.cs:78 | Parse accepts a byte only when `@byte < maxvalue && @byte > minvalue`, so only 1..8. | Parse("0") and Parse("9") throw, although 0 and 9 are Digit.MinValue and Digit.MaxValue and the int conversion accepts them. | Every digit 0..9 parses, so each digit's text round-trips. | high, not executed | Digits.ParseRejectsBounds | Digits.ParseInclusiveRoundTrip |
