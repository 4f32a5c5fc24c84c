/** What the lexer promises about a whole run, proved about LexFrom. */
module LexerProperties {

  import opened Wrappers
  import opened Exceptions
  import opened CharClasses
  import opened TextSpans
  import opened Diagnostics
  import opened Syntax
  import opened LexerSpec

  function Max(a: int, b: int): int {
    if a < b then b else a
  }

  /** Every token starts at or after the cursor Lex started from. */
  lemma {:induction false} LexTokensStartAfterCursor(s: seq<byte>, start: nat)
    ensures forall i :: 0 <= i < |LexFrom(s, start).tokens| ==> start <= LexFrom(s, start).tokens[i].startPosition
    decreases |s| - start
  {
    var r := Step(s, start);
    if !EndsLexing(r) {
      LexTokensStartAfterCursor(s, r.next);
      assert LexFrom(s, start).tokens == TokenSeq(r.token) + LexFrom(s, r.next).tokens;
    }
  }

  /** Every token but the last starts inside the input. */
  lemma {:induction false} LexTokensStartInsideInput(s: seq<byte>, start: nat)
    ensures forall i :: 0 <= i < |LexFrom(s, start).tokens| - 1 ==> LexFrom(s, start).tokens[i].startPosition < |s|
    decreases |s| - start
  {
    var r := Step(s, start);
    if !EndsLexing(r) {
      LexTokensStartInsideInput(s, r.next);
      var rest := LexFrom(s, r.next).tokens;
      assert LexFrom(s, start).tokens == TokenSeq(r.token) + rest;
      if r.token.None? {
        LexFromUnfolds(s, r.next);
      }
    }
  }

  /** The start positions of the tokens strictly increase. */
  predicate Increasing(t: seq<SyntaxToken>) {
    forall i, j :: 0 <= i < j < |t| ==> t[i].startPosition < t[j].startPosition
  }

  lemma PrependKeepsIncreasing(x: SyntaxToken, rest: seq<SyntaxToken>)
    requires Increasing(rest)
    requires forall j :: 0 <= j < |rest| ==> x.startPosition < rest[j].startPosition
    ensures Increasing([x] + rest)
  {
    var t := [x] + rest;
    forall i, j | 0 <= i < j < |t|
      ensures t[i].startPosition < t[j].startPosition
    {
      assert t[j] == rest[j - 1];
      if i > 0 {
        assert t[i] == rest[i - 1];
      }
    }
  }

  /** The start positions of the tokens of a run strictly increase. */
  lemma {:induction false} LexPositionsIncrease(s: seq<byte>, start: nat)
    ensures Increasing(LexFrom(s, start).tokens)
    decreases |s| - start
  {
    var r := Step(s, start);
    if !EndsLexing(r) {
      LexPositionsIncrease(s, r.next);
      LexTokensStartAfterCursor(s, r.next);
      var rest := LexFrom(s, r.next).tokens;
      assert LexFrom(s, start).tokens == TokenSeq(r.token) + rest;
      if r.token.Some? {
        PrependKeepsIncreasing(r.token.value, rest);
      }
    }
  }

  /** A pass ends lexing exactly at the end of the input, with a token
      without text, or on a NUL byte, with a token whose text is "\0". */
  lemma StepEndsAtEndOrNul(s: seq<byte>, start: nat)
    ensures EndsLexing(Step(s, start)) <==>
              (start >= |s| || s[start] == 0)
    ensures EndsLexing(Step(s, start)) ==>
              Step(s, start).token.value
              == if start >= |s| then SyntaxToken(EndOfFile, None, start, NoValue)
                 else SyntaxToken(EndOfFile, Some("\0"), start, NoValue)
  {
    if start < |s| {
      var c := CharOf(s[start]);
      assert c == '\0' <==> s[start] == 0;
      if c != '\0' {
        assert SingleCharKind(c).Some? || IsQuote(c) || IsWhitespaceStart(c) || IsLetter(c) || IsDigit(c)
               || Step(s, start) == Emit(Unknown, [c], start, NoValue, start + 1);
      }
    }
  }

  /** The cursor of the pass that ends a run started at start. */
  ghost function StopPosition(s: seq<byte>, start: nat): (p: nat)
    ensures start <= p <= Max(start, |s|)
    ensures EndsLexing(Step(s, p))
    decreases |s| - start
  {
    var r := Step(s, start);
    if EndsLexing(r) then start else StopPosition(s, r.next)
  }

  function Last<T>(t: seq<T>): T
    requires |t| >= 1
  {
    t[|t| - 1]
  }

  lemma LastOfAppend<T>(a: seq<T>, b: seq<T>)
    requires |b| >= 1
    ensures Last(a + b) == Last(b)
  {
  }

  /** The last token of a run is the one the stopping pass yields. */
  lemma {:induction false} LastTokenIsStopToken(s: seq<byte>, start: nat)
    ensures Last(LexFrom(s, start).tokens) == Step(s, StopPosition(s, start)).token.value
    decreases |s| - start
  {
    var r := Step(s, start);
    if !EndsLexing(r) {
      LastTokenIsStopToken(s, r.next);
      var rest := LexFrom(s, r.next).tokens;
      assert LexFrom(s, start).tokens == TokenSeq(r.token) + rest;
      LastOfAppend(TokenSeq(r.token), rest);
    }
  }

  /** No token but the last of a run is an end-of-file token. */
  lemma {:induction false} LexNoEarlyEndOfFile(s: seq<byte>, start: nat)
    ensures forall i :: 0 <= i < |LexFrom(s, start).tokens| - 1 ==> LexFrom(s, start).tokens[i].kind != EndOfFile
    decreases |s| - start
  {
    var r := Step(s, start);
    if !EndsLexing(r) {
      LexNoEarlyEndOfFile(s, r.next);
      assert LexFrom(s, start).tokens == TokenSeq(r.token) + LexFrom(s, r.next).tokens;
    }
  }

  /** Lex stops after its first end-of-file token: the last token is one,
      and no earlier token is. */
  lemma LexEndsWithOneEndOfFile(s: seq<byte>, start: nat)
    ensures Last(LexFrom(s, start).tokens).kind == EndOfFile
    ensures forall i :: 0 <= i < |LexFrom(s, start).tokens| - 1 ==> LexFrom(s, start).tokens[i].kind != EndOfFile
  {
    LastTokenIsStopToken(s, start);
    LexNoEarlyEndOfFile(s, start);
  }

  /** The end-of-file token that ends a run is either the end of the input,
      without text, or a NUL byte, with the text "\0". */
  lemma LexStopsAtEndOrNul(s: seq<byte>, start: nat)
    ensures var last := Last(LexFrom(s, start).tokens);
            (last.text.None? && last.startPosition == Max(start, |s|))
            || (last.text == Some("\0") && start <= last.startPosition < |s| && s[last.startPosition] == 0)
  {
    var p := StopPosition(s, start);
    LastTokenIsStopToken(s, start);
    StepEndsAtEndOrNul(s, p);
  }

  /** A run over input without NUL bytes reads to the end of the input. */
  lemma LexWithoutNulReachesEnd(s: seq<byte>, start: nat)
    requires forall k :: start <= k < |s| ==> s[k] != 0
    ensures Last(LexFrom(s, start).tokens) == SyntaxToken(EndOfFile, None, Max(start, |s|), NoValue)
  {
    var p := StopPosition(s, start);
    LastTokenIsStopToken(s, start);
    StepEndsAtEndOrNul(s, p);
  }

  /** Every diagnostic covers a span of the input at or after the cursor
      Lex started from. */
  predicate SpanInside(d: Diagnostic, start: nat, s: seq<byte>) {
    start <= d.span.start && 0 <= d.span.length && d.span.End() <= |s|
  }

  lemma StepDiagnosticsInsideInput(s: seq<byte>, start: nat)
    ensures forall d :: d in Step(s, start).diagnostics ==> SpanInside(d, start, s)
  {
    if start < |s| {
      var c := CharOf(s[start]);
      if IsQuote(c) && SingleCharKind(c).None? && c != '\0' {
        assert forall d :: d in LiteralStep(s, start).diagnostics ==> SpanInside(d, start, s);
      } else if IsLetter(c) && !IsWhitespaceStart(c) && !IsQuote(c) && SingleCharKind(c).None? && c != '\0' {
        assert forall d :: d in KeywordStep(s, start).diagnostics ==> SpanInside(d, start, s);
      }
    }
  }

  lemma {:induction false} LexDiagnosticsInsideInput(s: seq<byte>, start: nat)
    ensures forall d :: d in LexFrom(s, start).diagnostics ==> SpanInside(d, start, s)
    decreases |s| - start
  {
    var r := Step(s, start);
    StepDiagnosticsInsideInput(s, start);
    if !EndsLexing(r) {
      LexDiagnosticsInsideInput(s, r.next);
    }
  }

  /** A token's text is the bytes it was read from: those at its start
      position, or, for a literal, those after its opening quote. */
  predicate TextMatchesInput(s: seq<byte>, t: SyntaxToken) {
    t.text.Some? ==>
      var offset := if t.kind == Literal then 1 else 0;
      0 <= t.startPosition && t.startPosition + offset + |t.text.value| <= |s|
      && Chars(s[t.startPosition + offset..t.startPosition + offset + |t.text.value|]) == t.text.value
  }

  lemma LiteralTextMatchesInput(s: seq<byte>, start: nat)
    requires start < |s|
    ensures LiteralStep(s, start).token.Some? ==> TextMatchesInput(s, LiteralStep(s, start).token.value)
  {
  }

  lemma KeywordTextMatchesInput(s: seq<byte>, start: nat)
    requires start < |s|
    ensures KeywordStep(s, start).token.Some? ==> TextMatchesInput(s, KeywordStep(s, start).token.value)
  {
  }

  lemma StepTextMatchesInput(s: seq<byte>, start: nat)
    ensures Step(s, start).token.Some? ==> TextMatchesInput(s, Step(s, start).token.value)
  {
    if start < |s| {
      var c := CharOf(s[start]);
      if IsQuote(c) && SingleCharKind(c).None? && c != '\0' {
        LiteralTextMatchesInput(s, start);
      } else if IsLetter(c) && !IsWhitespaceStart(c) && !IsQuote(c) && SingleCharKind(c).None? && c != '\0' {
        KeywordTextMatchesInput(s, start);
      } else {
        assert Chars(s[start..start + 1]) == [c];
      }
    }
  }

  lemma {:induction false} LexTextsMatchInput(s: seq<byte>, start: nat)
    ensures forall t :: t in LexFrom(s, start).tokens ==> TextMatchesInput(s, t)
    decreases |s| - start
  {
    var r := Step(s, start);
    StepTextMatchesInput(s, start);
    if !EndsLexing(r) {
      LexTextsMatchInput(s, r.next);
    }
  }

  /** A run reports no diagnostic exactly when none of its passes is cut
      short by the end of the input and none yields an Unknown token. */
  predicate CleanPass(s: seq<byte>, start: nat) {
    var r := Step(s, start);
    r.token.Some? && r.token.value.kind != Unknown
  }

  ghost predicate AllPassesClean(s: seq<byte>, start: nat)
    decreases |s| - start
  {
    CleanPass(s, start) && (EndsLexing(Step(s, start)) || AllPassesClean(s, Step(s, start).next))
  }

  lemma StepDiagnostics(s: seq<byte>, start: nat)
    ensures Step(s, start).diagnostics == [] <==> CleanPass(s, start)
  {
  }

  lemma {:induction false} NoDiagnosticsIffAllPassesClean(s: seq<byte>, start: nat)
    ensures LexFrom(s, start).diagnostics == [] <==> AllPassesClean(s, start)
    decreases |s| - start
  {
    StepDiagnostics(s, start);
    var r := Step(s, start);
    if !EndsLexing(r) {
      NoDiagnosticsIffAllPassesClean(s, r.next);
    }
  }

  // ---- One pass, by the character that starts it -----------------------

  /** A structural character is a token of its own, with no diagnostic. */
  lemma SingleCharacterPass(s: seq<byte>, start: nat)
    requires start < |s| && SingleCharKind(CharOf(s[start])).Some?
    ensures Step(s, start)
         == StepResult(Some(SyntaxToken(SingleCharKind(CharOf(s[start])).value, Some([CharOf(s[start])]), start, NoValue)), [], start + 1)
  {
  }

  /** A character no branch knows is an Unknown token of its own, with an
      unknown-character diagnostic over it. */
  lemma UnknownCharacterPass(s: seq<byte>, start: nat)
    requires start < |s|
    requires var c := CharOf(s[start]);
             c != '\0' && SingleCharKind(c).None? && !IsQuote(c) && !IsWhitespaceStart(c) && !IsLetter(c) && !IsDigit(c)
    ensures var c := CharOf(s[start]);
            Step(s, start) == StepResult(Some(SyntaxToken(Unknown, Some([c]), start, NoValue)),
                                         [Diagnostic(TextSpan(start, 1), UnknownMessage + [c], Some(UnknownCharacter))],
                                         start + 1)
  {
  }

  /** A whitespace pass takes the longest run of whitespace, and the byte
      after it is left for the next pass. */
  lemma WhitespacePass(s: seq<byte>, start: nat)
    requires start < |s| && IsWhitespaceStart(CharOf(s[start]))
    ensures var r := Step(s, start);
            r.token.Some? && r.token.value.kind == Whitespace && r.diagnostics == []
            && r.token.value.text == Some(Chars(s[start..r.next]))
            && (forall k :: start <= k < r.next ==> IsWhiteSpace(CharOf(s[k])))
            && (r.next < |s| ==> !IsWhiteSpace(CharOf(s[r.next])))
  {
  }

  /** A literal pass ends at the first double quote that QuoteCloses
      accepts; its text is everything between the delimiters. */
  lemma ClosedLiteralPass(s: seq<byte>, start: nat)
    requires start < |s| && IsQuote(CharOf(s[start]))
    requires Step(s, start).token.Some?
    ensures var r := Step(s, start);
            var text := Chars(s[start + 1..r.next - 1]);
            r.token.value == SyntaxToken(Literal, Some(text), start, NoValue) && r.diagnostics == []
            && start + 2 <= r.next <= |s| && CharOf(s[r.next - 1]) == '"' && QuoteCloses(text)
            && r.next - 1 == LiteralRunEnd(s, start + 1, start + 1)
  {
    assert Step(s, start) == LiteralStep(s, start);
  }

  /** A literal the input ends inside yields no token: one diagnostic
      spans it from its opening quote, and lexing goes on at the end of the
      input. */
  lemma UnterminatedLiteralPass(s: seq<byte>, start: nat)
    requires start < |s| && IsQuote(CharOf(s[start]))
    requires Step(s, start).token.None?
    ensures var r := Step(s, start);
            var text := Chars(s[start + 1..|s|]);
            r.next == |s| && LiteralRunEnd(s, start + 1, start + 1) == |s|
            && r.diagnostics == [Diagnostic(TextSpan(start, |s| - start - 1), LiteralMessage + text, Some(EndOfFileExtractLiteral))]
  {
  }

  /** Conversely, a literal whose first accepted closing quote is at e is
      the literal token of the text between the delimiters, and lexing goes
      on after the quote. The text starts at i, right after the opening
      quote at start. */
  lemma LiteralClosesAt(s: seq<byte>, start: nat, i: nat, e: nat)
    requires i == start + 1 && i <= e < |s|
    requires IsQuote(CharOf(s[start]))
    requires forall k :: i <= k < e ==> !LiteralStopsAt(s, i, k)
    requires LiteralStopsAt(s, i, e)
    ensures Step(s, start) == Emit(Literal, Chars(s[i..e]), start, NoValue, e + 1)
  {
    assert LiteralRunEnd(s, i, i) == e;
  }

  /** Conversely, a literal that no quote closes yields only the
      never-closed diagnostic over its text, and lexing goes on at the end
      of the input. */
  lemma LiteralNeverCloses(s: seq<byte>, start: nat, i: nat)
    requires i == start + 1 && i <= |s|
    requires IsQuote(CharOf(s[start]))
    requires forall k :: i <= k < |s| ==> !LiteralStopsAt(s, i, k)
    ensures Step(s, start)
         == StepResult(None, [Diagnostic(TextSpan(start, |s| - i), LiteralMessage + Chars(s[i..|s|]), Some(EndOfFileExtractLiteral))], |s|)
  {
    assert LiteralRunEnd(s, i, i) == |s|;
  }

  /** After a pass cut short by the end of the input, the run ends with an
      end-of-file token at the end of the input. */
  lemma CutShortPassEndsRun(s: seq<byte>, start: nat)
    requires Step(s, start).token.None?
    ensures LexFrom(s, Step(s, start).next).tokens == [SyntaxToken(EndOfFile, None, |s|, NoValue)]
  {
    LexFromUnfolds(s, |s|);
  }

  lemma KeywordStepFacts(s: seq<byte>, start: nat)
    requires start < |s| && IsLetter(CharOf(s[start]))
    requires KeywordStep(s, start).token.Some?
    ensures var r := KeywordStep(s, start);
            var tok := r.token.value;
            var text := tok.text.value;
            tok.text == Some(Chars(s[start..r.next - 1]))
            && r.next - 1 == KeywordRunEnd(s, start + 1)
            && (forall k :: start <= k < r.next - 1 ==> !IsKeywordDelimiter(CharOf(s[k])))
            && IsKeywordDelimiter(CharOf(s[r.next - 1]))
            && (tok.kind == Boolean <==> EqualsIgnoreCase(text, "true") || EqualsIgnoreCase(text, "false"))
            && (tok.kind == Boolean ==> (tok.value == BoolValue(true) <==> EqualsIgnoreCase(text, "true")))
            && (tok.kind == Null <==> !EqualsIgnoreCase(text, "true") && !EqualsIgnoreCase(text, "false") && EqualsIgnoreCase(text, "null"))
            && (tok.kind == Unknown <==> r.diagnostics != [])
            && (tok.kind == Boolean || tok.kind == Null || tok.kind == Unknown)
  {
  }

  lemma StepOnLetter(s: seq<byte>, start: nat)
    requires start < |s| && IsLetter(CharOf(s[start]))
    ensures Step(s, start) == KeywordStep(s, start)
  {
    var c := CharOf(s[start]);
    assert c != '\0' && SingleCharKind(c).None? && !IsQuote(c) && !IsWhitespaceStart(c);
  }

  /** A letter run takes every byte up to the first `:`, `,` or
      whitespace. It is Boolean exactly when its text is true or false in
      any case, with the value true exactly for true; Null exactly for
      null; Unknown, with a diagnostic, otherwise. The delimiter that ends
      it is consumed. */
  lemma KeywordPass(s: seq<byte>, start: nat)
    requires start < |s| && IsLetter(CharOf(s[start]))
    requires Step(s, start).token.Some?
    ensures var r := Step(s, start);
            var tok := r.token.value;
            var text := tok.text.value;
            tok.text == Some(Chars(s[start..r.next - 1]))
            && r.next - 1 == KeywordRunEnd(s, start + 1)
            && (forall k :: start <= k < r.next - 1 ==> !IsKeywordDelimiter(CharOf(s[k])))
            && IsKeywordDelimiter(CharOf(s[r.next - 1]))
            && (tok.kind == Boolean <==> EqualsIgnoreCase(text, "true") || EqualsIgnoreCase(text, "false"))
            && (tok.kind == Boolean ==> (tok.value == BoolValue(true) <==> EqualsIgnoreCase(text, "true")))
            && (tok.kind == Null <==> !EqualsIgnoreCase(text, "true") && !EqualsIgnoreCase(text, "false") && EqualsIgnoreCase(text, "null"))
            && (tok.kind == Unknown <==> r.diagnostics != [])
            && (tok.kind == Boolean || tok.kind == Null || tok.kind == Unknown)
  {
    StepOnLetter(s, start);
    KeywordStepFacts(s, start);
  }

  /** A letter run yields no token exactly when no delimiter follows it
      before the end of the input. Then one diagnostic spans the run from
      its first letter, and lexing goes on at the end of the input. */
  lemma UnterminatedKeywordPass(s: seq<byte>, start: nat)
    requires start < |s| && IsLetter(CharOf(s[start]))
    ensures Step(s, start).token.None? <==> forall k :: start < k < |s| ==> !IsKeywordDelimiter(CharOf(s[k]))
    ensures Step(s, start).token.None? ==> (
              Step(s, start)
           == StepResult(None, [Diagnostic(TextSpan(start, |s| - start), KeywordMessage, Some(EndOfFileExtractLiteral))], |s|))
  {
    StepOnLetter(s, start);
    var e := KeywordRunEnd(s, start + 1);
    if e < |s| {
      assert IsKeywordDelimiter(CharOf(s[e]));
    }
  }

  /** Conversely, a letter run whose first delimiter is at e is the token
      of the text before it, classified, and lexing goes on after the
      delimiter. */
  lemma KeywordEndsAt(s: seq<byte>, start: nat, e: nat)
    requires start < e < |s| && IsLetter(CharOf(s[start]))
    requires forall k :: start < k < e ==> !IsKeywordDelimiter(CharOf(s[k]))
    requires IsKeywordDelimiter(CharOf(s[e]))
    ensures var text := Chars(s[start..e]);
            Step(s, start) == Emit(ClassifyKeyword(text).0, text, start, ClassifyKeyword(text).1, e + 1)
  {
    StepOnLetter(s, start);
    assert KeywordRunEnd(s, start + 1) == e;
  }

  lemma DigitStepFacts(s: seq<byte>, start: nat)
    requires start < |s| && IsDigit(CharOf(s[start]))
    ensures var r := DigitStep(s, start);
            r.token.Some? && r.diagnostics == []
            && var tok := r.token.value;
               var text := tok.text.value;
               tok.kind == Digit && tok.text.Some? && |text| >= 1
               && start + |text| == DigitRunEnd(s, start + 1)
               && text == Chars(s[start..start + |text|])
               && (forall i :: 0 <= i < |text| ==> IsDigit(text[i]))
               && (start + |text| < |s| ==> !IsDigit(CharOf(s[start + |text|])))
               && tok.value == IntValue(DecimalValue(text))
               && r.next == (if start + |text| < |s| then start + |text| + 1 else |s|)
  {
  }

  /** A digit run is a Digit token over the longest run of digits, whose
      value is the decimal number its text spells; the byte after the run
      is consumed. */
  lemma DigitPass(s: seq<byte>, start: nat)
    requires start < |s| && IsDigit(CharOf(s[start]))
    ensures var r := Step(s, start);
            r.token.Some? && r.diagnostics == []
            && var tok := r.token.value;
               var text := tok.text.value;
               tok.kind == Digit && tok.text.Some? && |text| >= 1
               && start + |text| == DigitRunEnd(s, start + 1)
               && text == Chars(s[start..start + |text|])
               && (forall i :: 0 <= i < |text| ==> IsDigit(text[i]))
               && (start + |text| < |s| ==> !IsDigit(CharOf(s[start + |text|])))
               && tok.value == IntValue(DecimalValue(text))
               && r.next == (if start + |text| < |s| then start + |text| + 1 else |s|)
  {
    var c := CharOf(s[start]);
    assert c != '\0' && SingleCharKind(c).None? && !IsQuote(c) && !IsWhitespaceStart(c) && !IsLetter(c);
    DigitStepFacts(s, start);
  }
}
