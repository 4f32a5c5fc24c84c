/** What one step of the lexer does, and what a whole run produces, as
    functions of the input bytes and the cursor. The JsonLexer class is
    proved to compute exactly these. */
module LexerSpec {

  import opened Wrappers
  import opened Exceptions
  import opened CharClasses
  import opened TextSpans
  import opened Diagnostics
  import opened Syntax

  // ---- The four sub-scanners -------------------------------------------

  /** Where a whitespace run that continues at i stops: the first byte that
      is not whitespace, or the end. */
  function WhitespaceRunEnd(s: seq<byte>, i: nat): (e: nat)
    requires i <= |s|
    ensures i <= e <= |s|
    ensures forall k :: i <= k < e ==> IsWhiteSpace(CharOf(s[k]))
    ensures e < |s| ==> !IsWhiteSpace(CharOf(s[e]))
    decreases |s| - i
  {
    if i == |s| || !IsWhiteSpace(CharOf(s[i])) then i else WhitespaceRunEnd(s, i + 1)
  }

  /** The bytes that end a letter run. */
  predicate IsKeywordDelimiter(c: char) {
    c == ':' || c == ',' || IsWhiteSpace(c)
  }

  /** Where a letter run that continues at i stops: the first delimiter,
      or the end. */
  function KeywordRunEnd(s: seq<byte>, i: nat): (e: nat)
    requires i <= |s|
    ensures i <= e <= |s|
    ensures forall k :: i <= k < e ==> !IsKeywordDelimiter(CharOf(s[k]))
    ensures e < |s| ==> IsKeywordDelimiter(CharOf(s[e]))
    decreases |s| - i
  {
    if i == |s| || IsKeywordDelimiter(CharOf(s[i])) then i else KeywordRunEnd(s, i + 1)
  }

  /** Where a digit run that continues at i stops: the first byte that is
      not an ASCII digit, or the end. */
  function DigitRunEnd(s: seq<byte>, i: nat): (e: nat)
    requires i <= |s|
    ensures i <= e <= |s|
    ensures forall k :: i <= k < e ==> IsDigit(CharOf(s[k]))
    ensures e < |s| ==> !IsDigit(CharOf(s[e]))
    decreases |s| - i
  {
    if i == |s| || !IsDigit(CharOf(s[i])) then i else DigitRunEnd(s, i + 1)
  }

  /** The terminator test of a literal whose text so far is given: a quote
      closes it unless the last character is a backslash, and a quote after
      two backslashes closes it too. The characters before the text count as
      '\0', the default that History.Current and History.Preceding(1) return
      when too few characters were added. */
  predicate QuoteCloses(text: string) {
    var current := if |text| == 0 then '\0' else text[|text| - 1];
    var previous := if |text| < 2 then '\0' else text[|text| - 2];
    current != '\\' || previous == '\\'
  }

  /** Whether the byte at k ends a literal whose text starts at i. */
  predicate LiteralStopsAt(s: seq<byte>, i: nat, k: nat)
    requires i <= k < |s|
  {
    CharOf(s[k]) == '"' && QuoteCloses(Chars(s[i..k]))
  }

  /** Searching from j, where the literal whose text starts at i stops:
      its closing quote, or the end when it has none. */
  function LiteralRunEnd(s: seq<byte>, i: nat, j: nat): (e: nat)
    requires i <= j <= |s|
    ensures j <= e <= |s|
    ensures forall k {:trigger LiteralStopsAt(s, i, k)} :: j <= k < e ==> !LiteralStopsAt(s, i, k)
    ensures e < |s| ==> LiteralStopsAt(s, i, e)
    decreases |s| - j
  {
    if j == |s| || LiteralStopsAt(s, i, j) then j else LiteralRunEnd(s, i, j + 1)
  }

  // ---- One step --------------------------------------------------------

  /** What one pass of the loop in Lex does: the token it yields (none when
      a sub-scan reaches the end of the input), the diagnostics it adds and
      the cursor it leaves. */
  datatype StepResult = StepResult(token: Option<SyntaxToken>, diagnostics: seq<Diagnostic>, next: nat)

  predicate EndsLexing(r: StepResult) {
    r.token.Some? && r.token.value.kind == EndOfFile
  }

  const LiteralMessage: string := "The string is open but never closed. "
  const KeywordMessage: string := "the allowed keywords are boolean values, null and object"
  const UnknownMessage: string := "Unknown character(s) "

  function UnknownDiagnostic(start: nat, text: string): Diagnostic {
    Diagnostic(TextSpan(start, |text|), UnknownMessage + text, Some(UnknownCharacter))
  }

  /** The end of a pass that was not cut short: the token, and an unknown
      character diagnostic when the kind is Unknown or Count. */
  function Emit(kind: SyntaxKind, text: string, start: nat, value: TokenValue, next: nat): StepResult {
    StepResult(Some(SyntaxToken(kind, Some(text), start, value)),
               if kind == Unknown || kind == Count then [UnknownDiagnostic(start, text)] else [],
               next)
  }

  /** The characters that are a token on their own. */
  function SingleCharKind(c: char): Option<SyntaxKind> {
    if c == '{' then Some(OpenObjectCurlyBracket)
    else if c == '}' then Some(CloseObjectCurlyBracket)
    else if c == '[' then Some(OpenArrayBracket)
    else if c == ']' then Some(CloseArrayBracket)
    else if c == '-' then Some(Minus)
    else if c == ',' then Some(Coma)
    else if c == '/' then Some(Slash)
    else if c == '\\' then Some(BackSlash)
    else if c == ':' then Some(Colon)
    else None
  }

  predicate IsQuote(c: char) {
    c == '\'' || c == '"'
  }

  /** The characters that start a whitespace run (a run then continues over
      any whitespace). */
  predicate IsWhitespaceStart(c: char) {
    c == ' ' || c == '\t' || c == '\n' || c == '\r'
  }

  /** A literal opened at start: its text excludes both delimiters. */
  function LiteralStep(s: seq<byte>, start: nat): StepResult
    requires start < |s|
  {
    var e := LiteralRunEnd(s, start + 1, start + 1);
    var text := Chars(s[start + 1..e]);
    if e == |s| then
      StepResult(None, [Diagnostic(TextSpan(start, |text|), LiteralMessage + text, Some(EndOfFileExtractLiteral))], |s|)
    else
      Emit(Literal, text, start, NoValue, e + 1)
  }

  /** How the text of a letter run is classified: true and false (in any
      case) are Boolean, null is Null, anything else stays Unknown. */
  function ClassifyKeyword(text: string): (SyntaxKind, TokenValue) {
    if EqualsIgnoreCase(text, "true") || EqualsIgnoreCase(text, "false") then
      (Boolean, BoolValue(EqualsIgnoreCase(text, "true")))
    else if EqualsIgnoreCase(text, "null") then
      (Null, NoValue)
    else
      (Unknown, NoValue)
  }

  /** A letter run started at start: the delimiter that ends it is consumed
      and belongs to no token. */
  function KeywordStep(s: seq<byte>, start: nat): StepResult
    requires start < |s|
  {
    var e := KeywordRunEnd(s, start + 1);
    var text := Chars(s[start..e]);
    if e == |s| then
      StepResult(None, [Diagnostic(TextSpan(start, |text|), KeywordMessage, Some(EndOfFileExtractLiteral))], |s|)
    else
      var (kind, value) := ClassifyKeyword(text);
      Emit(kind, text, start, value, e + 1)
  }

  /** A digit run started at start: the byte that ends it is consumed and
      belongs to no token. */
  function DigitStep(s: seq<byte>, start: nat): StepResult
    requires start < |s| && IsDigit(CharOf(s[start]))
  {
    var e := DigitRunEnd(s, start + 1);
    var text := Chars(s[start..e]);
    Emit(Digit, text, start, IntValue(DecimalValue(text)), if e < |s| then e + 1 else e)
  }

  /** One pass of the loop in Lex from the cursor start. */
  function Step(s: seq<byte>, start: nat): (r: StepResult)
    ensures EndsLexing(r) ==> r.next == start || r.next == start + 1
    ensures !EndsLexing(r) ==> start < r.next <= |s|
    ensures r.token.Some? ==> r.token.value.startPosition == start
    ensures r.token.None? ==> r.next == |s|
  {
    if start >= |s| then
      StepResult(Some(SyntaxToken(EndOfFile, None, start, NoValue)), [], start)
    else
      var c := CharOf(s[start]);
      // A byte is never U+FFFF, so of the two end-of-file cases of the
      // switch only the NUL byte can match here.
      if c == '\0' then
        Emit(EndOfFile, [c], start, NoValue, start + 1)
      else if SingleCharKind(c).Some? then
        Emit(SingleCharKind(c).value, [c], start, NoValue, start + 1)
      else if IsQuote(c) then
        LiteralStep(s, start)
      else if IsWhitespaceStart(c) then
        var e := WhitespaceRunEnd(s, start + 1);
        Emit(Whitespace, Chars(s[start..e]), start, NoValue, e)
      else if IsLetter(c) then
        KeywordStep(s, start)
      else if IsDigit(c) then
        DigitStep(s, start)
      else
        Emit(Unknown, [c], start, NoValue, start + 1)
  }

  // ---- A whole run -----------------------------------------------------

  datatype LexOutput = LexOutput(tokens: seq<SyntaxToken>, diagnostics: seq<Diagnostic>)

  function TokenSeq(t: Option<SyntaxToken>): seq<SyntaxToken> {
    if t.Some? then [t.value] else []
  }

  /** Every token Lex yields from the cursor start, and every diagnostic
      it adds, in order. */
  function LexFrom(s: seq<byte>, start: nat): (out: LexOutput)
    ensures |out.tokens| >= 1
    decreases |s| - start
  {
    var r := Step(s, start);
    if EndsLexing(r) then
      LexOutput([r.token.value], r.diagnostics)
    else
      var rest := LexFrom(s, r.next);
      LexOutput(TokenSeq(r.token) + rest.tokens, r.diagnostics + rest.diagnostics)
  }

  /** One unfolding of LexFrom, named so that callers need not unfold it
      themselves. */
  lemma LexFromUnfolds(s: seq<byte>, start: nat)
    ensures var r := Step(s, start);
            EndsLexing(r) ==> LexFrom(s, start) == LexOutput([r.token.value], r.diagnostics)
    ensures var r := Step(s, start);
            !EndsLexing(r) ==> LexFrom(s, start).tokens == TokenSeq(r.token) + LexFrom(s, r.next).tokens
                               && LexFrom(s, start).diagnostics == r.diagnostics + LexFrom(s, r.next).diagnostics
  {
  }

  /** What is left to lex after one more pass: the outputs gathered so far
      grow by the pass's token and diagnostics. */
  lemma LexFromAdvances(s: seq<byte>, start: nat, tokens: seq<SyntaxToken>, emitted: seq<Diagnostic>, total: LexOutput)
    requires total.tokens == tokens + LexFrom(s, start).tokens
    requires total.diagnostics == emitted + LexFrom(s, start).diagnostics
    ensures var r := Step(s, start);
            !EndsLexing(r) ==> total.tokens == (tokens + TokenSeq(r.token)) + LexFrom(s, r.next).tokens
                               && total.diagnostics == (emitted + r.diagnostics) + LexFrom(s, r.next).diagnostics
    ensures var r := Step(s, start);
            EndsLexing(r) ==> total.tokens == tokens + [r.token.value]
                              && total.diagnostics == emitted + r.diagnostics
  {
    var r := Step(s, start);
    LexFromUnfolds(s, start);
    if !EndsLexing(r) {
      var rest := LexFrom(s, r.next);
      assert tokens + (TokenSeq(r.token) + rest.tokens) == (tokens + TokenSeq(r.token)) + rest.tokens;
      assert emitted + (r.diagnostics + rest.diagnostics) == (emitted + r.diagnostics) + rest.diagnostics;
    }
  }
}
