/** Runs of the lexer specification on concrete inputs, among them shorter
    versions of the inputs of the repository's lexer tests. Each input is
    given as its bytes. */
module LexerScenarios {

  import opened Wrappers
  import opened Exceptions
  import opened CharClasses
  import opened TextSpans
  import opened Diagnostics
  import opened Syntax
  import opened LexerSpec
  import opened LexerProperties

  /** Five spaces. */
  const FiveSpacesInput: seq<byte> := [32, 32, 32, 32, 32]

  lemma FiveSpacesPass0(s: seq<byte>)
    requires s == FiveSpacesInput
    ensures Step(s, 0) == StepResult(Some(SyntaxToken(Whitespace, Some("     "), 0, NoValue)), [], 5)
  {
    assert s[0] == 32 && CharOf(s[0]) == ' ';
    assert s[0] == 32 && s[1] == 32 && s[2] == 32 && s[3] == 32 && s[4] == 32;
    assert WhitespaceRunEnd(s, 5) == 5;
    assert WhitespaceRunEnd(s, 4) == 5;
    assert WhitespaceRunEnd(s, 3) == 5;
    assert WhitespaceRunEnd(s, 2) == 5;
    assert WhitespaceRunEnd(s, 1) == 5;
    forall k | 0 <= k < 5 ensures Chars(s[0..5])[k] == "     "[k] {
      assert k == 0 || k == 1 || k == 2 || k == 3 || k == 4;
    }
    assert Chars(s[0..5]) == "     ";
  }
  lemma FiveSpacesFrom5(s: seq<byte>)
    requires Step(s, 5) == StepResult(Some(SyntaxToken(EndOfFile, None, 5, NoValue)), [], 5)
    ensures LexFrom(s, 5) == LexOutput([SyntaxToken(EndOfFile, None, 5, NoValue)], [])
  {
    LexFromUnfolds(s, 5);
  }
  lemma FiveSpacesFrom0(s: seq<byte>)
    requires Step(s, 0) == StepResult(Some(SyntaxToken(Whitespace, Some("     "), 0, NoValue)), [], 5)
    requires Step(s, 5) == StepResult(Some(SyntaxToken(EndOfFile, None, 5, NoValue)), [], 5)
    ensures LexFrom(s, 0) == LexOutput([SyntaxToken(Whitespace, Some("     "), 0, NoValue), SyntaxToken(EndOfFile, None, 5, NoValue)], [])
  {
    FiveSpacesFrom5(s);
    LexFromUnfolds(s, 0);
    assert LexFrom(s, 0).tokens == [SyntaxToken(Whitespace, Some("     "), 0, NoValue)] + LexFrom(s, 5).tokens;
    assert LexFrom(s, 0).diagnostics == LexFrom(s, 5).diagnostics;
    assert [SyntaxToken(Whitespace, Some("     "), 0, NoValue)] + [SyntaxToken(EndOfFile, None, 5, NoValue)] == [SyntaxToken(Whitespace, Some("     "), 0, NoValue), SyntaxToken(EndOfFile, None, 5, NoValue)];
  }

  /** Five spaces are one whitespace token of length five, then the end of input, with no diagnostic (JsonLexerTest.cs, lines 111-124). */
  lemma FiveSpaces(s: seq<byte>)
    requires s == FiveSpacesInput
    ensures LexFrom(s, 0)
         == LexOutput([SyntaxToken(Whitespace, Some("     "), 0, NoValue),
                      SyntaxToken(EndOfFile, None, 5, NoValue)],
                      [])
  {
    FiveSpacesPass0(s);
    FiveSpacesFrom0(s);
  }

  /** A literal followed by five spaces. */
  const LiteralThenSpacesInput: seq<byte> := [34, 84, 101, 115, 116, 34, 32, 32, 32, 32, 32]

  lemma LiteralThenSpacesNoStop1To5(s: seq<byte>)
    requires s == LiteralThenSpacesInput
    ensures forall k :: 1 <= k < 5 ==> !LiteralStopsAt(s, 1, k)
  {
    assert s[1] == 84 && s[2] == 101 && s[3] == 115 && s[4] == 116;
    forall k | 1 <= k < 5 ensures !LiteralStopsAt(s, 1, k) {
      assert k == 1 || k == 2 || k == 3 || k == 4;
    }
  }
  lemma LiteralThenSpacesChars1To5(s: seq<byte>)
    requires s == LiteralThenSpacesInput
    ensures Chars(s[1..5]) == "Test"
  {
    assert s[1] == 84 && s[2] == 101 && s[3] == 115 && s[4] == 116;
    forall k | 0 <= k < 4 ensures Chars(s[1..5])[k] == "Test"[k] {
      assert k == 0 || k == 1 || k == 2 || k == 3;
    }
    assert Chars(s[1..5]) == "Test";
  }
  lemma LiteralThenSpacesPass0(s: seq<byte>)
    requires s == LiteralThenSpacesInput
    ensures Step(s, 0) == StepResult(Some(SyntaxToken(Literal, Some("Test"), 0, NoValue)), [], 6)
  {
    assert s[0] == 34 && CharOf(s[0]) == '"';
    LiteralThenSpacesNoStop1To5(s);
    LiteralThenSpacesChars1To5(s);
    assert s[5] == 34;
    LiteralClosesAt(s, 0, 1, 5);
  }
  lemma LiteralThenSpacesPass1(s: seq<byte>)
    requires s == LiteralThenSpacesInput
    ensures Step(s, 6) == StepResult(Some(SyntaxToken(Whitespace, Some("     "), 6, NoValue)), [], 11)
  {
    assert s[6] == 32 && CharOf(s[6]) == ' ';
    assert s[6] == 32 && s[7] == 32 && s[8] == 32 && s[9] == 32 && s[10] == 32;
    assert WhitespaceRunEnd(s, 11) == 11;
    assert WhitespaceRunEnd(s, 10) == 11;
    assert WhitespaceRunEnd(s, 9) == 11;
    assert WhitespaceRunEnd(s, 8) == 11;
    assert WhitespaceRunEnd(s, 7) == 11;
    forall k | 0 <= k < 5 ensures Chars(s[6..11])[k] == "     "[k] {
      assert k == 0 || k == 1 || k == 2 || k == 3 || k == 4;
    }
    assert Chars(s[6..11]) == "     ";
  }
  lemma LiteralThenSpacesFrom11(s: seq<byte>)
    requires Step(s, 11) == StepResult(Some(SyntaxToken(EndOfFile, None, 11, NoValue)), [], 11)
    ensures LexFrom(s, 11) == LexOutput([SyntaxToken(EndOfFile, None, 11, NoValue)], [])
  {
    LexFromUnfolds(s, 11);
  }
  lemma LiteralThenSpacesFrom6(s: seq<byte>)
    requires Step(s, 6) == StepResult(Some(SyntaxToken(Whitespace, Some("     "), 6, NoValue)), [], 11)
    requires Step(s, 11) == StepResult(Some(SyntaxToken(EndOfFile, None, 11, NoValue)), [], 11)
    ensures LexFrom(s, 6) == LexOutput([SyntaxToken(Whitespace, Some("     "), 6, NoValue), SyntaxToken(EndOfFile, None, 11, NoValue)], [])
  {
    LiteralThenSpacesFrom11(s);
    LexFromUnfolds(s, 6);
    assert LexFrom(s, 6).tokens == [SyntaxToken(Whitespace, Some("     "), 6, NoValue)] + LexFrom(s, 11).tokens;
    assert LexFrom(s, 6).diagnostics == LexFrom(s, 11).diagnostics;
    assert [SyntaxToken(Whitespace, Some("     "), 6, NoValue)] + [SyntaxToken(EndOfFile, None, 11, NoValue)] == [SyntaxToken(Whitespace, Some("     "), 6, NoValue), SyntaxToken(EndOfFile, None, 11, NoValue)];
  }
  lemma LiteralThenSpacesFrom0(s: seq<byte>)
    requires Step(s, 0) == StepResult(Some(SyntaxToken(Literal, Some("Test"), 0, NoValue)), [], 6)
    requires Step(s, 6) == StepResult(Some(SyntaxToken(Whitespace, Some("     "), 6, NoValue)), [], 11)
    requires Step(s, 11) == StepResult(Some(SyntaxToken(EndOfFile, None, 11, NoValue)), [], 11)
    ensures LexFrom(s, 0) == LexOutput([SyntaxToken(Literal, Some("Test"), 0, NoValue), SyntaxToken(Whitespace, Some("     "), 6, NoValue), SyntaxToken(EndOfFile, None, 11, NoValue)], [])
  {
    LiteralThenSpacesFrom6(s);
    LexFromUnfolds(s, 0);
    assert LexFrom(s, 0).tokens == [SyntaxToken(Literal, Some("Test"), 0, NoValue)] + LexFrom(s, 6).tokens;
    assert LexFrom(s, 0).diagnostics == LexFrom(s, 6).diagnostics;
    assert [SyntaxToken(Literal, Some("Test"), 0, NoValue)] + [SyntaxToken(Whitespace, Some("     "), 6, NoValue), SyntaxToken(EndOfFile, None, 11, NoValue)] == [SyntaxToken(Literal, Some("Test"), 0, NoValue), SyntaxToken(Whitespace, Some("     "), 6, NoValue), SyntaxToken(EndOfFile, None, 11, NoValue)];
  }

  /** A literal followed by spaces: a literal token, a whitespace token, the end of input, no diagnostic (JsonLexerTest.cs, lines 126-139, first case). */
  lemma LiteralThenSpaces(s: seq<byte>)
    requires s == LiteralThenSpacesInput
    ensures LexFrom(s, 0)
         == LexOutput([SyntaxToken(Literal, Some("Test"), 0, NoValue),
                      SyntaxToken(Whitespace, Some("     "), 6, NoValue),
                      SyntaxToken(EndOfFile, None, 11, NoValue)],
                      [])
  {
    LiteralThenSpacesPass0(s);
    LiteralThenSpacesPass1(s);
    LiteralThenSpacesFrom0(s);
  }

  /** Two literals separated by five spaces. */
  const TwoLiteralsInput: seq<byte> := [34, 84, 101, 115, 116, 34, 32, 32, 32, 32, 32, 34, 65, 34]

  lemma TwoLiteralsNoStop1To5(s: seq<byte>)
    requires s == TwoLiteralsInput
    ensures forall k :: 1 <= k < 5 ==> !LiteralStopsAt(s, 1, k)
  {
    assert s[1] == 84 && s[2] == 101 && s[3] == 115 && s[4] == 116;
    forall k | 1 <= k < 5 ensures !LiteralStopsAt(s, 1, k) {
      assert k == 1 || k == 2 || k == 3 || k == 4;
    }
  }
  lemma TwoLiteralsChars1To5(s: seq<byte>)
    requires s == TwoLiteralsInput
    ensures Chars(s[1..5]) == "Test"
  {
    assert s[1] == 84 && s[2] == 101 && s[3] == 115 && s[4] == 116;
    forall k | 0 <= k < 4 ensures Chars(s[1..5])[k] == "Test"[k] {
      assert k == 0 || k == 1 || k == 2 || k == 3;
    }
    assert Chars(s[1..5]) == "Test";
  }
  lemma TwoLiteralsNoStop12To13(s: seq<byte>)
    requires s == TwoLiteralsInput
    ensures forall k :: 12 <= k < 13 ==> !LiteralStopsAt(s, 12, k)
  {
    assert s[12] == 65;
    forall k | 12 <= k < 13 ensures !LiteralStopsAt(s, 12, k) {
      assert k == 12;
    }
  }
  lemma TwoLiteralsPass0(s: seq<byte>)
    requires s == TwoLiteralsInput
    ensures Step(s, 0) == StepResult(Some(SyntaxToken(Literal, Some("Test"), 0, NoValue)), [], 6)
  {
    assert s[0] == 34 && CharOf(s[0]) == '"';
    TwoLiteralsNoStop1To5(s);
    TwoLiteralsChars1To5(s);
    assert s[5] == 34;
    LiteralClosesAt(s, 0, 1, 5);
  }
  lemma TwoLiteralsPass1(s: seq<byte>)
    requires s == TwoLiteralsInput
    ensures Step(s, 6) == StepResult(Some(SyntaxToken(Whitespace, Some("     "), 6, NoValue)), [], 11)
  {
    assert s[6] == 32 && CharOf(s[6]) == ' ';
    assert s[6] == 32 && s[7] == 32 && s[8] == 32 && s[9] == 32 && s[10] == 32 && s[11] == 34;
    assert WhitespaceRunEnd(s, 11) == 11;
    assert WhitespaceRunEnd(s, 10) == 11;
    assert WhitespaceRunEnd(s, 9) == 11;
    assert WhitespaceRunEnd(s, 8) == 11;
    assert WhitespaceRunEnd(s, 7) == 11;
    assert s[6] == 32 && s[7] == 32 && s[8] == 32 && s[9] == 32 && s[10] == 32;
    forall k | 0 <= k < 5 ensures Chars(s[6..11])[k] == "     "[k] {
      assert k == 0 || k == 1 || k == 2 || k == 3 || k == 4;
    }
    assert Chars(s[6..11]) == "     ";
  }
  lemma TwoLiteralsPass2(s: seq<byte>)
    requires s == TwoLiteralsInput
    ensures Step(s, 11) == StepResult(Some(SyntaxToken(Literal, Some("A"), 11, NoValue)), [], 14)
  {
    assert s[11] == 34 && CharOf(s[11]) == '"';
    TwoLiteralsNoStop12To13(s);
    assert s[12] == 65;
    forall k | 0 <= k < 1 ensures Chars(s[12..13])[k] == "A"[k] {
      assert k == 0;
    }
    assert Chars(s[12..13]) == "A";
    assert s[13] == 34;
    LiteralClosesAt(s, 11, 12, 13);
  }
  lemma TwoLiteralsFrom14(s: seq<byte>)
    requires Step(s, 14) == StepResult(Some(SyntaxToken(EndOfFile, None, 14, NoValue)), [], 14)
    ensures LexFrom(s, 14) == LexOutput([SyntaxToken(EndOfFile, None, 14, NoValue)], [])
  {
    LexFromUnfolds(s, 14);
  }
  lemma TwoLiteralsFrom11(s: seq<byte>)
    requires Step(s, 11) == StepResult(Some(SyntaxToken(Literal, Some("A"), 11, NoValue)), [], 14)
    requires Step(s, 14) == StepResult(Some(SyntaxToken(EndOfFile, None, 14, NoValue)), [], 14)
    ensures LexFrom(s, 11) == LexOutput([SyntaxToken(Literal, Some("A"), 11, NoValue), SyntaxToken(EndOfFile, None, 14, NoValue)], [])
  {
    TwoLiteralsFrom14(s);
    LexFromUnfolds(s, 11);
    assert LexFrom(s, 11).tokens == [SyntaxToken(Literal, Some("A"), 11, NoValue)] + LexFrom(s, 14).tokens;
    assert LexFrom(s, 11).diagnostics == LexFrom(s, 14).diagnostics;
    assert [SyntaxToken(Literal, Some("A"), 11, NoValue)] + [SyntaxToken(EndOfFile, None, 14, NoValue)] == [SyntaxToken(Literal, Some("A"), 11, NoValue), SyntaxToken(EndOfFile, None, 14, NoValue)];
  }
  lemma TwoLiteralsFrom6(s: seq<byte>)
    requires Step(s, 6) == StepResult(Some(SyntaxToken(Whitespace, Some("     "), 6, NoValue)), [], 11)
    requires Step(s, 11) == StepResult(Some(SyntaxToken(Literal, Some("A"), 11, NoValue)), [], 14)
    requires Step(s, 14) == StepResult(Some(SyntaxToken(EndOfFile, None, 14, NoValue)), [], 14)
    ensures LexFrom(s, 6) == LexOutput([SyntaxToken(Whitespace, Some("     "), 6, NoValue), SyntaxToken(Literal, Some("A"), 11, NoValue), SyntaxToken(EndOfFile, None, 14, NoValue)], [])
  {
    TwoLiteralsFrom11(s);
    LexFromUnfolds(s, 6);
    assert LexFrom(s, 6).tokens == [SyntaxToken(Whitespace, Some("     "), 6, NoValue)] + LexFrom(s, 11).tokens;
    assert LexFrom(s, 6).diagnostics == LexFrom(s, 11).diagnostics;
    assert [SyntaxToken(Whitespace, Some("     "), 6, NoValue)] + [SyntaxToken(Literal, Some("A"), 11, NoValue), SyntaxToken(EndOfFile, None, 14, NoValue)] == [SyntaxToken(Whitespace, Some("     "), 6, NoValue), SyntaxToken(Literal, Some("A"), 11, NoValue), SyntaxToken(EndOfFile, None, 14, NoValue)];
  }
  lemma TwoLiteralsFrom0(s: seq<byte>)
    requires Step(s, 0) == StepResult(Some(SyntaxToken(Literal, Some("Test"), 0, NoValue)), [], 6)
    requires Step(s, 6) == StepResult(Some(SyntaxToken(Whitespace, Some("     "), 6, NoValue)), [], 11)
    requires Step(s, 11) == StepResult(Some(SyntaxToken(Literal, Some("A"), 11, NoValue)), [], 14)
    requires Step(s, 14) == StepResult(Some(SyntaxToken(EndOfFile, None, 14, NoValue)), [], 14)
    ensures LexFrom(s, 0) == LexOutput([SyntaxToken(Literal, Some("Test"), 0, NoValue), SyntaxToken(Whitespace, Some("     "), 6, NoValue), SyntaxToken(Literal, Some("A"), 11, NoValue), SyntaxToken(EndOfFile, None, 14, NoValue)], [])
  {
    TwoLiteralsFrom6(s);
    LexFromUnfolds(s, 0);
    assert LexFrom(s, 0).tokens == [SyntaxToken(Literal, Some("Test"), 0, NoValue)] + LexFrom(s, 6).tokens;
    assert LexFrom(s, 0).diagnostics == LexFrom(s, 6).diagnostics;
    assert [SyntaxToken(Literal, Some("Test"), 0, NoValue)] + [SyntaxToken(Whitespace, Some("     "), 6, NoValue), SyntaxToken(Literal, Some("A"), 11, NoValue), SyntaxToken(EndOfFile, None, 14, NoValue)] == [SyntaxToken(Literal, Some("Test"), 0, NoValue), SyntaxToken(Whitespace, Some("     "), 6, NoValue), SyntaxToken(Literal, Some("A"), 11, NoValue), SyntaxToken(EndOfFile, None, 14, NoValue)];
  }

  /** Two literals separated by spaces, no diagnostic (JsonLexerTest.cs, lines 126-139, second case). */
  lemma TwoLiterals(s: seq<byte>)
    requires s == TwoLiteralsInput
    ensures LexFrom(s, 0)
         == LexOutput([SyntaxToken(Literal, Some("Test"), 0, NoValue),
                      SyntaxToken(Whitespace, Some("     "), 6, NoValue),
                      SyntaxToken(Literal, Some("A"), 11, NoValue),
                      SyntaxToken(EndOfFile, None, 14, NoValue)],
                      [])
  {
    TwoLiteralsPass0(s);
    TwoLiteralsPass1(s);
    TwoLiteralsPass2(s);
    TwoLiteralsFrom0(s);
  }

  /** A property name, a colon, a space and a pattern literal. */
  const PropertyColonStringInput: seq<byte> := [34, 112, 97, 116, 116, 101, 114, 110, 34, 58, 32, 34, 94, 92, 92, 123, 91, 97, 45, 102, 93, 92, 125, 36, 34]

  lemma PropertyColonStringNoStop1To8(s: seq<byte>)
    requires s == PropertyColonStringInput
    ensures forall k :: 1 <= k < 8 ==> !LiteralStopsAt(s, 1, k)
  {
    assert s[1] == 112 && s[2] == 97 && s[3] == 116 && s[4] == 116 && s[5] == 101 && s[6] == 114 && s[7] == 110;
    forall k | 1 <= k < 8 ensures !LiteralStopsAt(s, 1, k) {
      assert k == 1 || k == 2 || k == 3 || k == 4 || k == 5 || k == 6 || k == 7;
    }
  }
  lemma PropertyColonStringChars1To8(s: seq<byte>)
    requires s == PropertyColonStringInput
    ensures Chars(s[1..8]) == "pattern"
  {
    assert s[1] == 112 && s[2] == 97 && s[3] == 116 && s[4] == 116 && s[5] == 101 && s[6] == 114 && s[7] == 110;
    forall k | 0 <= k < 7 ensures Chars(s[1..8])[k] == "pattern"[k] {
      assert k == 0 || k == 1 || k == 2 || k == 3 || k == 4 || k == 5 || k == 6;
    }
    assert Chars(s[1..8]) == "pattern";
  }
  lemma PropertyColonStringNoStop12To24(s: seq<byte>)
    requires s == PropertyColonStringInput
    ensures forall k :: 12 <= k < 24 ==> !LiteralStopsAt(s, 12, k)
  {
    assert s[12] == 94 && s[13] == 92 && s[14] == 92 && s[15] == 123 && s[16] == 91 && s[17] == 97 && s[18] == 45 && s[19] == 102 && s[20] == 93 && s[21] == 92 && s[22] == 125 && s[23] == 36;
    forall k | 12 <= k < 24 ensures !LiteralStopsAt(s, 12, k) {
      assert k == 12 || k == 13 || k == 14 || k == 15 || k == 16 || k == 17 || k == 18 || k == 19 || k == 20 || k == 21 || k == 22 || k == 23;
    }
  }
  lemma PropertyColonStringChars12To24(s: seq<byte>)
    requires s == PropertyColonStringInput
    ensures Chars(s[12..24]) == "^\\\\{[a-f]\\}$"
  {
    assert s[12] == 94 && s[13] == 92 && s[14] == 92 && s[15] == 123 && s[16] == 91 && s[17] == 97 && s[18] == 45 && s[19] == 102 && s[20] == 93 && s[21] == 92 && s[22] == 125 && s[23] == 36;
    forall k | 0 <= k < 12 ensures Chars(s[12..24])[k] == "^\\\\{[a-f]\\}$"[k] {
      assert k == 0 || k == 1 || k == 2 || k == 3 || k == 4 || k == 5 || k == 6 || k == 7 || k == 8 || k == 9 || k == 10 || k == 11;
    }
    assert Chars(s[12..24]) == "^\\\\{[a-f]\\}$";
  }
  lemma PropertyColonStringPass0(s: seq<byte>)
    requires s == PropertyColonStringInput
    ensures Step(s, 0) == StepResult(Some(SyntaxToken(Literal, Some("pattern"), 0, NoValue)), [], 9)
  {
    assert s[0] == 34 && CharOf(s[0]) == '"';
    PropertyColonStringNoStop1To8(s);
    PropertyColonStringChars1To8(s);
    assert s[8] == 34;
    LiteralClosesAt(s, 0, 1, 8);
  }
  lemma PropertyColonStringPass1(s: seq<byte>)
    requires s == PropertyColonStringInput
    ensures Step(s, 9) == StepResult(Some(SyntaxToken(Colon, Some(":"), 9, NoValue)), [], 10)
  {
    assert s[9] == 58 && CharOf(s[9]) == ':';
  }
  lemma PropertyColonStringPass2(s: seq<byte>)
    requires s == PropertyColonStringInput
    ensures Step(s, 10) == StepResult(Some(SyntaxToken(Whitespace, Some(" "), 10, NoValue)), [], 11)
  {
    assert s[10] == 32 && CharOf(s[10]) == ' ';
    assert s[10] == 32 && s[11] == 34;
    assert WhitespaceRunEnd(s, 11) == 11;
    assert s[10] == 32;
    forall k | 0 <= k < 1 ensures Chars(s[10..11])[k] == " "[k] {
      assert k == 0;
    }
    assert Chars(s[10..11]) == " ";
  }
  lemma PropertyColonStringPass3(s: seq<byte>)
    requires s == PropertyColonStringInput
    ensures Step(s, 11) == StepResult(Some(SyntaxToken(Literal, Some("^\\\\{[a-f]\\}$"), 11, NoValue)), [], 25)
  {
    assert s[11] == 34 && CharOf(s[11]) == '"';
    PropertyColonStringNoStop12To24(s);
    PropertyColonStringChars12To24(s);
    assert s[24] == 34;
    LiteralClosesAt(s, 11, 12, 24);
  }
  lemma PropertyColonStringFrom25(s: seq<byte>)
    requires Step(s, 25) == StepResult(Some(SyntaxToken(EndOfFile, None, 25, NoValue)), [], 25)
    ensures LexFrom(s, 25) == LexOutput([SyntaxToken(EndOfFile, None, 25, NoValue)], [])
  {
    LexFromUnfolds(s, 25);
  }
  lemma PropertyColonStringFrom11(s: seq<byte>)
    requires Step(s, 11) == StepResult(Some(SyntaxToken(Literal, Some("^\\\\{[a-f]\\}$"), 11, NoValue)), [], 25)
    requires Step(s, 25) == StepResult(Some(SyntaxToken(EndOfFile, None, 25, NoValue)), [], 25)
    ensures LexFrom(s, 11) == LexOutput([SyntaxToken(Literal, Some("^\\\\{[a-f]\\}$"), 11, NoValue), SyntaxToken(EndOfFile, None, 25, NoValue)], [])
  {
    PropertyColonStringFrom25(s);
    LexFromUnfolds(s, 11);
    assert LexFrom(s, 11).tokens == [SyntaxToken(Literal, Some("^\\\\{[a-f]\\}$"), 11, NoValue)] + LexFrom(s, 25).tokens;
    assert LexFrom(s, 11).diagnostics == LexFrom(s, 25).diagnostics;
    assert [SyntaxToken(Literal, Some("^\\\\{[a-f]\\}$"), 11, NoValue)] + [SyntaxToken(EndOfFile, None, 25, NoValue)] == [SyntaxToken(Literal, Some("^\\\\{[a-f]\\}$"), 11, NoValue), SyntaxToken(EndOfFile, None, 25, NoValue)];
  }
  lemma PropertyColonStringFrom10(s: seq<byte>)
    requires Step(s, 10) == StepResult(Some(SyntaxToken(Whitespace, Some(" "), 10, NoValue)), [], 11)
    requires Step(s, 11) == StepResult(Some(SyntaxToken(Literal, Some("^\\\\{[a-f]\\}$"), 11, NoValue)), [], 25)
    requires Step(s, 25) == StepResult(Some(SyntaxToken(EndOfFile, None, 25, NoValue)), [], 25)
    ensures LexFrom(s, 10) == LexOutput([SyntaxToken(Whitespace, Some(" "), 10, NoValue), SyntaxToken(Literal, Some("^\\\\{[a-f]\\}$"), 11, NoValue), SyntaxToken(EndOfFile, None, 25, NoValue)], [])
  {
    PropertyColonStringFrom11(s);
    LexFromUnfolds(s, 10);
    assert LexFrom(s, 10).tokens == [SyntaxToken(Whitespace, Some(" "), 10, NoValue)] + LexFrom(s, 11).tokens;
    assert LexFrom(s, 10).diagnostics == LexFrom(s, 11).diagnostics;
    assert [SyntaxToken(Whitespace, Some(" "), 10, NoValue)] + [SyntaxToken(Literal, Some("^\\\\{[a-f]\\}$"), 11, NoValue), SyntaxToken(EndOfFile, None, 25, NoValue)] == [SyntaxToken(Whitespace, Some(" "), 10, NoValue), SyntaxToken(Literal, Some("^\\\\{[a-f]\\}$"), 11, NoValue), SyntaxToken(EndOfFile, None, 25, NoValue)];
  }
  lemma PropertyColonStringFrom9(s: seq<byte>)
    requires Step(s, 9) == StepResult(Some(SyntaxToken(Colon, Some(":"), 9, NoValue)), [], 10)
    requires Step(s, 10) == StepResult(Some(SyntaxToken(Whitespace, Some(" "), 10, NoValue)), [], 11)
    requires Step(s, 11) == StepResult(Some(SyntaxToken(Literal, Some("^\\\\{[a-f]\\}$"), 11, NoValue)), [], 25)
    requires Step(s, 25) == StepResult(Some(SyntaxToken(EndOfFile, None, 25, NoValue)), [], 25)
    ensures LexFrom(s, 9) == LexOutput([SyntaxToken(Colon, Some(":"), 9, NoValue), SyntaxToken(Whitespace, Some(" "), 10, NoValue), SyntaxToken(Literal, Some("^\\\\{[a-f]\\}$"), 11, NoValue), SyntaxToken(EndOfFile, None, 25, NoValue)], [])
  {
    PropertyColonStringFrom10(s);
    LexFromUnfolds(s, 9);
    assert LexFrom(s, 9).tokens == [SyntaxToken(Colon, Some(":"), 9, NoValue)] + LexFrom(s, 10).tokens;
    assert LexFrom(s, 9).diagnostics == LexFrom(s, 10).diagnostics;
    assert [SyntaxToken(Colon, Some(":"), 9, NoValue)] + [SyntaxToken(Whitespace, Some(" "), 10, NoValue), SyntaxToken(Literal, Some("^\\\\{[a-f]\\}$"), 11, NoValue), SyntaxToken(EndOfFile, None, 25, NoValue)] == [SyntaxToken(Colon, Some(":"), 9, NoValue), SyntaxToken(Whitespace, Some(" "), 10, NoValue), SyntaxToken(Literal, Some("^\\\\{[a-f]\\}$"), 11, NoValue), SyntaxToken(EndOfFile, None, 25, NoValue)];
  }
  lemma PropertyColonStringFrom0(s: seq<byte>)
    requires Step(s, 0) == StepResult(Some(SyntaxToken(Literal, Some("pattern"), 0, NoValue)), [], 9)
    requires Step(s, 9) == StepResult(Some(SyntaxToken(Colon, Some(":"), 9, NoValue)), [], 10)
    requires Step(s, 10) == StepResult(Some(SyntaxToken(Whitespace, Some(" "), 10, NoValue)), [], 11)
    requires Step(s, 11) == StepResult(Some(SyntaxToken(Literal, Some("^\\\\{[a-f]\\}$"), 11, NoValue)), [], 25)
    requires Step(s, 25) == StepResult(Some(SyntaxToken(EndOfFile, None, 25, NoValue)), [], 25)
    ensures LexFrom(s, 0) == LexOutput([SyntaxToken(Literal, Some("pattern"), 0, NoValue), SyntaxToken(Colon, Some(":"), 9, NoValue), SyntaxToken(Whitespace, Some(" "), 10, NoValue), SyntaxToken(Literal, Some("^\\\\{[a-f]\\}$"), 11, NoValue), SyntaxToken(EndOfFile, None, 25, NoValue)], [])
  {
    PropertyColonStringFrom9(s);
    LexFromUnfolds(s, 0);
    assert LexFrom(s, 0).tokens == [SyntaxToken(Literal, Some("pattern"), 0, NoValue)] + LexFrom(s, 9).tokens;
    assert LexFrom(s, 0).diagnostics == LexFrom(s, 9).diagnostics;
    assert [SyntaxToken(Literal, Some("pattern"), 0, NoValue)] + [SyntaxToken(Colon, Some(":"), 9, NoValue), SyntaxToken(Whitespace, Some(" "), 10, NoValue), SyntaxToken(Literal, Some("^\\\\{[a-f]\\}$"), 11, NoValue), SyntaxToken(EndOfFile, None, 25, NoValue)] == [SyntaxToken(Literal, Some("pattern"), 0, NoValue), SyntaxToken(Colon, Some(":"), 9, NoValue), SyntaxToken(Whitespace, Some(" "), 10, NoValue), SyntaxToken(Literal, Some("^\\\\{[a-f]\\}$"), 11, NoValue), SyntaxToken(EndOfFile, None, 25, NoValue)];
  }

  /** A property, a colon, a space and a pattern: the pattern keeps its backslashes, and the fifth token is the end of input (JsonLexerTest.cs, lines 49-62, on a shorter pattern). */
  lemma PropertyColonString(s: seq<byte>)
    requires s == PropertyColonStringInput
    ensures LexFrom(s, 0)
         == LexOutput([SyntaxToken(Literal, Some("pattern"), 0, NoValue),
                      SyntaxToken(Colon, Some(":"), 9, NoValue),
                      SyntaxToken(Whitespace, Some(" "), 10, NoValue),
                      SyntaxToken(Literal, Some("^\\\\{[a-f]\\}$"), 11, NoValue),
                      SyntaxToken(EndOfFile, None, 25, NoValue)],
                      [])
  {
    PropertyColonStringPass0(s);
    PropertyColonStringPass1(s);
    PropertyColonStringPass2(s);
    PropertyColonStringPass3(s);
    PropertyColonStringFrom0(s);
  }

  /** The same without the closing quote. */
  const MissingEndOfStringInput: seq<byte> := [34, 112, 97, 116, 116, 101, 114, 110, 34, 58, 32, 34, 94, 92, 92, 123, 91, 97, 45, 102, 93, 92, 125, 36]

  lemma MissingEndOfStringNoStop1To8(s: seq<byte>)
    requires s == MissingEndOfStringInput
    ensures forall k :: 1 <= k < 8 ==> !LiteralStopsAt(s, 1, k)
  {
    assert s[1] == 112 && s[2] == 97 && s[3] == 116 && s[4] == 116 && s[5] == 101 && s[6] == 114 && s[7] == 110;
    forall k | 1 <= k < 8 ensures !LiteralStopsAt(s, 1, k) {
      assert k == 1 || k == 2 || k == 3 || k == 4 || k == 5 || k == 6 || k == 7;
    }
  }
  lemma MissingEndOfStringChars1To8(s: seq<byte>)
    requires s == MissingEndOfStringInput
    ensures Chars(s[1..8]) == "pattern"
  {
    assert s[1] == 112 && s[2] == 97 && s[3] == 116 && s[4] == 116 && s[5] == 101 && s[6] == 114 && s[7] == 110;
    forall k | 0 <= k < 7 ensures Chars(s[1..8])[k] == "pattern"[k] {
      assert k == 0 || k == 1 || k == 2 || k == 3 || k == 4 || k == 5 || k == 6;
    }
    assert Chars(s[1..8]) == "pattern";
  }
  lemma MissingEndOfStringNoStop12To24(s: seq<byte>)
    requires s == MissingEndOfStringInput
    ensures forall k :: 12 <= k < 24 ==> !LiteralStopsAt(s, 12, k)
  {
    assert s[12] == 94 && s[13] == 92 && s[14] == 92 && s[15] == 123 && s[16] == 91 && s[17] == 97 && s[18] == 45 && s[19] == 102 && s[20] == 93 && s[21] == 92 && s[22] == 125 && s[23] == 36;
    forall k | 12 <= k < 24 ensures !LiteralStopsAt(s, 12, k) {
      assert k == 12 || k == 13 || k == 14 || k == 15 || k == 16 || k == 17 || k == 18 || k == 19 || k == 20 || k == 21 || k == 22 || k == 23;
    }
  }
  lemma MissingEndOfStringChars12To24(s: seq<byte>)
    requires s == MissingEndOfStringInput
    ensures Chars(s[12..24]) == "^\\\\{[a-f]\\}$"
  {
    assert s[12] == 94 && s[13] == 92 && s[14] == 92 && s[15] == 123 && s[16] == 91 && s[17] == 97 && s[18] == 45 && s[19] == 102 && s[20] == 93 && s[21] == 92 && s[22] == 125 && s[23] == 36;
    forall k | 0 <= k < 12 ensures Chars(s[12..24])[k] == "^\\\\{[a-f]\\}$"[k] {
      assert k == 0 || k == 1 || k == 2 || k == 3 || k == 4 || k == 5 || k == 6 || k == 7 || k == 8 || k == 9 || k == 10 || k == 11;
    }
    assert Chars(s[12..24]) == "^\\\\{[a-f]\\}$";
  }
  lemma MissingEndOfStringPass0(s: seq<byte>)
    requires s == MissingEndOfStringInput
    ensures Step(s, 0) == StepResult(Some(SyntaxToken(Literal, Some("pattern"), 0, NoValue)), [], 9)
  {
    assert s[0] == 34 && CharOf(s[0]) == '"';
    MissingEndOfStringNoStop1To8(s);
    MissingEndOfStringChars1To8(s);
    assert s[8] == 34;
    LiteralClosesAt(s, 0, 1, 8);
  }
  lemma MissingEndOfStringPass1(s: seq<byte>)
    requires s == MissingEndOfStringInput
    ensures Step(s, 9) == StepResult(Some(SyntaxToken(Colon, Some(":"), 9, NoValue)), [], 10)
  {
    assert s[9] == 58 && CharOf(s[9]) == ':';
  }
  lemma MissingEndOfStringPass2(s: seq<byte>)
    requires s == MissingEndOfStringInput
    ensures Step(s, 10) == StepResult(Some(SyntaxToken(Whitespace, Some(" "), 10, NoValue)), [], 11)
  {
    assert s[10] == 32 && CharOf(s[10]) == ' ';
    assert s[10] == 32 && s[11] == 34;
    assert WhitespaceRunEnd(s, 11) == 11;
    assert s[10] == 32;
    forall k | 0 <= k < 1 ensures Chars(s[10..11])[k] == " "[k] {
      assert k == 0;
    }
    assert Chars(s[10..11]) == " ";
  }
  lemma MissingEndOfStringPass3(s: seq<byte>)
    requires s == MissingEndOfStringInput
    ensures Step(s, 11) == StepResult(None, [Diagnostic(TextSpan(11, 12), LiteralMessage + "^\\\\{[a-f]\\}$", Some(EndOfFileExtractLiteral))], 24)
  {
    assert s[11] == 34 && CharOf(s[11]) == '"';
    MissingEndOfStringNoStop12To24(s);
    MissingEndOfStringChars12To24(s);
    LiteralNeverCloses(s, 11, 12);
  }
  lemma MissingEndOfStringFrom24(s: seq<byte>)
    requires Step(s, 24) == StepResult(Some(SyntaxToken(EndOfFile, None, 24, NoValue)), [], 24)
    ensures LexFrom(s, 24) == LexOutput([SyntaxToken(EndOfFile, None, 24, NoValue)], [])
  {
    LexFromUnfolds(s, 24);
  }
  lemma MissingEndOfStringFrom11(s: seq<byte>)
    requires Step(s, 11) == StepResult(None, [Diagnostic(TextSpan(11, 12), LiteralMessage + "^\\\\{[a-f]\\}$", Some(EndOfFileExtractLiteral))], 24)
    requires Step(s, 24) == StepResult(Some(SyntaxToken(EndOfFile, None, 24, NoValue)), [], 24)
    ensures LexFrom(s, 11) == LexOutput([SyntaxToken(EndOfFile, None, 24, NoValue)], [Diagnostic(TextSpan(11, 12), LiteralMessage + "^\\\\{[a-f]\\}$", Some(EndOfFileExtractLiteral))])
  {
    MissingEndOfStringFrom24(s);
    LexFromUnfolds(s, 11);
    assert LexFrom(s, 11).tokens == LexFrom(s, 24).tokens;
    assert LexFrom(s, 11).diagnostics == [Diagnostic(TextSpan(11, 12), LiteralMessage + "^\\\\{[a-f]\\}$", Some(EndOfFileExtractLiteral))] + LexFrom(s, 24).diagnostics;
  }
  lemma MissingEndOfStringFrom10(s: seq<byte>)
    requires Step(s, 10) == StepResult(Some(SyntaxToken(Whitespace, Some(" "), 10, NoValue)), [], 11)
    requires Step(s, 11) == StepResult(None, [Diagnostic(TextSpan(11, 12), LiteralMessage + "^\\\\{[a-f]\\}$", Some(EndOfFileExtractLiteral))], 24)
    requires Step(s, 24) == StepResult(Some(SyntaxToken(EndOfFile, None, 24, NoValue)), [], 24)
    ensures LexFrom(s, 10) == LexOutput([SyntaxToken(Whitespace, Some(" "), 10, NoValue), SyntaxToken(EndOfFile, None, 24, NoValue)], [Diagnostic(TextSpan(11, 12), LiteralMessage + "^\\\\{[a-f]\\}$", Some(EndOfFileExtractLiteral))])
  {
    MissingEndOfStringFrom11(s);
    LexFromUnfolds(s, 10);
    assert LexFrom(s, 10).tokens == [SyntaxToken(Whitespace, Some(" "), 10, NoValue)] + LexFrom(s, 11).tokens;
    assert LexFrom(s, 10).diagnostics == LexFrom(s, 11).diagnostics;
    assert [SyntaxToken(Whitespace, Some(" "), 10, NoValue)] + [SyntaxToken(EndOfFile, None, 24, NoValue)] == [SyntaxToken(Whitespace, Some(" "), 10, NoValue), SyntaxToken(EndOfFile, None, 24, NoValue)];
  }
  lemma MissingEndOfStringFrom9(s: seq<byte>)
    requires Step(s, 9) == StepResult(Some(SyntaxToken(Colon, Some(":"), 9, NoValue)), [], 10)
    requires Step(s, 10) == StepResult(Some(SyntaxToken(Whitespace, Some(" "), 10, NoValue)), [], 11)
    requires Step(s, 11) == StepResult(None, [Diagnostic(TextSpan(11, 12), LiteralMessage + "^\\\\{[a-f]\\}$", Some(EndOfFileExtractLiteral))], 24)
    requires Step(s, 24) == StepResult(Some(SyntaxToken(EndOfFile, None, 24, NoValue)), [], 24)
    ensures LexFrom(s, 9) == LexOutput([SyntaxToken(Colon, Some(":"), 9, NoValue), SyntaxToken(Whitespace, Some(" "), 10, NoValue), SyntaxToken(EndOfFile, None, 24, NoValue)], [Diagnostic(TextSpan(11, 12), LiteralMessage + "^\\\\{[a-f]\\}$", Some(EndOfFileExtractLiteral))])
  {
    MissingEndOfStringFrom10(s);
    LexFromUnfolds(s, 9);
    assert LexFrom(s, 9).tokens == [SyntaxToken(Colon, Some(":"), 9, NoValue)] + LexFrom(s, 10).tokens;
    assert LexFrom(s, 9).diagnostics == LexFrom(s, 10).diagnostics;
    assert [SyntaxToken(Colon, Some(":"), 9, NoValue)] + [SyntaxToken(Whitespace, Some(" "), 10, NoValue), SyntaxToken(EndOfFile, None, 24, NoValue)] == [SyntaxToken(Colon, Some(":"), 9, NoValue), SyntaxToken(Whitespace, Some(" "), 10, NoValue), SyntaxToken(EndOfFile, None, 24, NoValue)];
  }
  lemma MissingEndOfStringFrom0(s: seq<byte>)
    requires Step(s, 0) == StepResult(Some(SyntaxToken(Literal, Some("pattern"), 0, NoValue)), [], 9)
    requires Step(s, 9) == StepResult(Some(SyntaxToken(Colon, Some(":"), 9, NoValue)), [], 10)
    requires Step(s, 10) == StepResult(Some(SyntaxToken(Whitespace, Some(" "), 10, NoValue)), [], 11)
    requires Step(s, 11) == StepResult(None, [Diagnostic(TextSpan(11, 12), LiteralMessage + "^\\\\{[a-f]\\}$", Some(EndOfFileExtractLiteral))], 24)
    requires Step(s, 24) == StepResult(Some(SyntaxToken(EndOfFile, None, 24, NoValue)), [], 24)
    ensures LexFrom(s, 0) == LexOutput([SyntaxToken(Literal, Some("pattern"), 0, NoValue), SyntaxToken(Colon, Some(":"), 9, NoValue), SyntaxToken(Whitespace, Some(" "), 10, NoValue), SyntaxToken(EndOfFile, None, 24, NoValue)], [Diagnostic(TextSpan(11, 12), LiteralMessage + "^\\\\{[a-f]\\}$", Some(EndOfFileExtractLiteral))])
  {
    MissingEndOfStringFrom9(s);
    LexFromUnfolds(s, 0);
    assert LexFrom(s, 0).tokens == [SyntaxToken(Literal, Some("pattern"), 0, NoValue)] + LexFrom(s, 9).tokens;
    assert LexFrom(s, 0).diagnostics == LexFrom(s, 9).diagnostics;
    assert [SyntaxToken(Literal, Some("pattern"), 0, NoValue)] + [SyntaxToken(Colon, Some(":"), 9, NoValue), SyntaxToken(Whitespace, Some(" "), 10, NoValue), SyntaxToken(EndOfFile, None, 24, NoValue)] == [SyntaxToken(Literal, Some("pattern"), 0, NoValue), SyntaxToken(Colon, Some(":"), 9, NoValue), SyntaxToken(Whitespace, Some(" "), 10, NoValue), SyntaxToken(EndOfFile, None, 24, NoValue)];
  }

  /** Without the closing quote the pattern yields no token and the only diagnostic is the never-closed one (JsonLexerTest.cs, lines 64-75, on a shorter pattern). */
  lemma MissingEndOfString(s: seq<byte>)
    requires s == MissingEndOfStringInput
    ensures LexFrom(s, 0)
         == LexOutput([SyntaxToken(Literal, Some("pattern"), 0, NoValue),
                      SyntaxToken(Colon, Some(":"), 9, NoValue),
                      SyntaxToken(Whitespace, Some(" "), 10, NoValue),
                      SyntaxToken(EndOfFile, None, 24, NoValue)],
                      [Diagnostic(TextSpan(11, 12), LiteralMessage + "^\\\\{[a-f]\\}$", Some(EndOfFileExtractLiteral))])
  {
    MissingEndOfStringPass0(s);
    MissingEndOfStringPass1(s);
    MissingEndOfStringPass2(s);
    MissingEndOfStringPass3(s);
    MissingEndOfStringFrom0(s);
  }

  /** A property name missing its closing quote. */
  const MissingQuoteAfterNameInput: seq<byte> := [34, 112, 97, 116, 116, 101, 114, 110, 58, 32, 34, 94, 92, 92, 123, 91, 97, 45, 102, 93, 92, 125, 36, 34]

  lemma MissingQuoteAfterNameNoStop1To10(s: seq<byte>)
    requires s == MissingQuoteAfterNameInput
    ensures forall k :: 1 <= k < 10 ==> !LiteralStopsAt(s, 1, k)
  {
    assert s[1] == 112 && s[2] == 97 && s[3] == 116 && s[4] == 116 && s[5] == 101 && s[6] == 114 && s[7] == 110 && s[8] == 58 && s[9] == 32;
    forall k | 1 <= k < 10 ensures !LiteralStopsAt(s, 1, k) {
      assert k == 1 || k == 2 || k == 3 || k == 4 || k == 5 || k == 6 || k == 7 || k == 8 || k == 9;
    }
  }
  lemma MissingQuoteAfterNameChars1To10(s: seq<byte>)
    requires s == MissingQuoteAfterNameInput
    ensures Chars(s[1..10]) == "pattern: "
  {
    assert s[1] == 112 && s[2] == 97 && s[3] == 116 && s[4] == 116 && s[5] == 101 && s[6] == 114 && s[7] == 110 && s[8] == 58 && s[9] == 32;
    forall k | 0 <= k < 9 ensures Chars(s[1..10])[k] == "pattern: "[k] {
      assert k == 0 || k == 1 || k == 2 || k == 3 || k == 4 || k == 5 || k == 6 || k == 7 || k == 8;
    }
    assert Chars(s[1..10]) == "pattern: ";
  }
  lemma MissingQuoteAfterNamePass0(s: seq<byte>)
    requires s == MissingQuoteAfterNameInput
    ensures Step(s, 0) == StepResult(Some(SyntaxToken(Literal, Some("pattern: "), 0, NoValue)), [], 11)
  {
    assert s[0] == 34 && CharOf(s[0]) == '"';
    MissingQuoteAfterNameNoStop1To10(s);
    MissingQuoteAfterNameChars1To10(s);
    assert s[10] == 34;
    LiteralClosesAt(s, 0, 1, 10);
  }
  lemma MissingQuoteAfterNamePass1(s: seq<byte>)
    requires s == MissingQuoteAfterNameInput
    ensures Step(s, 11) == StepResult(Some(SyntaxToken(Unknown, Some("^"), 11, NoValue)), [UnknownDiagnostic(11, "^")], 12)
  {
    assert s[11] == 94 && CharOf(s[11]) == '^';
  }
  lemma MissingQuoteAfterNamePass2(s: seq<byte>)
    requires s == MissingQuoteAfterNameInput
    ensures Step(s, 12) == StepResult(Some(SyntaxToken(BackSlash, Some("\\"), 12, NoValue)), [], 13)
  {
    assert s[12] == 92 && CharOf(s[12]) == '\\';
  }
  lemma MissingQuoteAfterNamePass3(s: seq<byte>)
    requires s == MissingQuoteAfterNameInput
    ensures Step(s, 13) == StepResult(Some(SyntaxToken(BackSlash, Some("\\"), 13, NoValue)), [], 14)
  {
    assert s[13] == 92 && CharOf(s[13]) == '\\';
  }
  lemma MissingQuoteAfterNamePass4(s: seq<byte>)
    requires s == MissingQuoteAfterNameInput
    ensures Step(s, 14) == StepResult(Some(SyntaxToken(OpenObjectCurlyBracket, Some("{"), 14, NoValue)), [], 15)
  {
    assert s[14] == 123 && CharOf(s[14]) == '{';
  }
  lemma MissingQuoteAfterNamePass5(s: seq<byte>)
    requires s == MissingQuoteAfterNameInput
    ensures Step(s, 15) == StepResult(Some(SyntaxToken(OpenArrayBracket, Some("["), 15, NoValue)), [], 16)
  {
    assert s[15] == 91 && CharOf(s[15]) == '[';
  }
  lemma MissingQuoteAfterNamePass6(s: seq<byte>)
    requires s == MissingQuoteAfterNameInput
    ensures Step(s, 16) == StepResult(None, [Diagnostic(TextSpan(16, 8), KeywordMessage, Some(EndOfFileExtractLiteral))], 24)
  {
    assert s[16] == 97 && CharOf(s[16]) == 'a';
    assert s[16] == 97 && s[17] == 45 && s[18] == 102 && s[19] == 93 && s[20] == 92 && s[21] == 125 && s[22] == 36 && s[23] == 34;
    forall k | 16 < k < 24 ensures !IsKeywordDelimiter(CharOf(s[k])) {
      assert k == 17 || k == 18 || k == 19 || k == 20 || k == 21 || k == 22 || k == 23;
    }
    forall k | 0 <= k < 8 ensures Chars(s[16..24])[k] == "a-f]\\}$\""[k] {
      assert k == 0 || k == 1 || k == 2 || k == 3 || k == 4 || k == 5 || k == 6 || k == 7;
    }
    assert Chars(s[16..24]) == "a-f]\\}$\"";
    UnterminatedKeywordPass(s, 16);
  }
  lemma MissingQuoteAfterNameFrom24(s: seq<byte>)
    requires Step(s, 24) == StepResult(Some(SyntaxToken(EndOfFile, None, 24, NoValue)), [], 24)
    ensures LexFrom(s, 24) == LexOutput([SyntaxToken(EndOfFile, None, 24, NoValue)], [])
  {
    LexFromUnfolds(s, 24);
  }
  lemma MissingQuoteAfterNameFrom16(s: seq<byte>)
    requires Step(s, 16) == StepResult(None, [Diagnostic(TextSpan(16, 8), KeywordMessage, Some(EndOfFileExtractLiteral))], 24)
    requires Step(s, 24) == StepResult(Some(SyntaxToken(EndOfFile, None, 24, NoValue)), [], 24)
    ensures LexFrom(s, 16) == LexOutput([SyntaxToken(EndOfFile, None, 24, NoValue)], [Diagnostic(TextSpan(16, 8), KeywordMessage, Some(EndOfFileExtractLiteral))])
  {
    MissingQuoteAfterNameFrom24(s);
    LexFromUnfolds(s, 16);
    assert LexFrom(s, 16).tokens == LexFrom(s, 24).tokens;
    assert LexFrom(s, 16).diagnostics == [Diagnostic(TextSpan(16, 8), KeywordMessage, Some(EndOfFileExtractLiteral))] + LexFrom(s, 24).diagnostics;
  }
  lemma MissingQuoteAfterNameFrom15(s: seq<byte>)
    requires Step(s, 15) == StepResult(Some(SyntaxToken(OpenArrayBracket, Some("["), 15, NoValue)), [], 16)
    requires Step(s, 16) == StepResult(None, [Diagnostic(TextSpan(16, 8), KeywordMessage, Some(EndOfFileExtractLiteral))], 24)
    requires Step(s, 24) == StepResult(Some(SyntaxToken(EndOfFile, None, 24, NoValue)), [], 24)
    ensures LexFrom(s, 15) == LexOutput([SyntaxToken(OpenArrayBracket, Some("["), 15, NoValue), SyntaxToken(EndOfFile, None, 24, NoValue)], [Diagnostic(TextSpan(16, 8), KeywordMessage, Some(EndOfFileExtractLiteral))])
  {
    MissingQuoteAfterNameFrom16(s);
    LexFromUnfolds(s, 15);
    assert LexFrom(s, 15).tokens == [SyntaxToken(OpenArrayBracket, Some("["), 15, NoValue)] + LexFrom(s, 16).tokens;
    assert LexFrom(s, 15).diagnostics == LexFrom(s, 16).diagnostics;
    assert [SyntaxToken(OpenArrayBracket, Some("["), 15, NoValue)] + [SyntaxToken(EndOfFile, None, 24, NoValue)] == [SyntaxToken(OpenArrayBracket, Some("["), 15, NoValue), SyntaxToken(EndOfFile, None, 24, NoValue)];
  }
  lemma MissingQuoteAfterNameFrom14(s: seq<byte>)
    requires Step(s, 14) == StepResult(Some(SyntaxToken(OpenObjectCurlyBracket, Some("{"), 14, NoValue)), [], 15)
    requires Step(s, 15) == StepResult(Some(SyntaxToken(OpenArrayBracket, Some("["), 15, NoValue)), [], 16)
    requires Step(s, 16) == StepResult(None, [Diagnostic(TextSpan(16, 8), KeywordMessage, Some(EndOfFileExtractLiteral))], 24)
    requires Step(s, 24) == StepResult(Some(SyntaxToken(EndOfFile, None, 24, NoValue)), [], 24)
    ensures LexFrom(s, 14) == LexOutput([SyntaxToken(OpenObjectCurlyBracket, Some("{"), 14, NoValue), SyntaxToken(OpenArrayBracket, Some("["), 15, NoValue), SyntaxToken(EndOfFile, None, 24, NoValue)], [Diagnostic(TextSpan(16, 8), KeywordMessage, Some(EndOfFileExtractLiteral))])
  {
    MissingQuoteAfterNameFrom15(s);
    LexFromUnfolds(s, 14);
    assert LexFrom(s, 14).tokens == [SyntaxToken(OpenObjectCurlyBracket, Some("{"), 14, NoValue)] + LexFrom(s, 15).tokens;
    assert LexFrom(s, 14).diagnostics == LexFrom(s, 15).diagnostics;
    assert [SyntaxToken(OpenObjectCurlyBracket, Some("{"), 14, NoValue)] + [SyntaxToken(OpenArrayBracket, Some("["), 15, NoValue), SyntaxToken(EndOfFile, None, 24, NoValue)] == [SyntaxToken(OpenObjectCurlyBracket, Some("{"), 14, NoValue), SyntaxToken(OpenArrayBracket, Some("["), 15, NoValue), SyntaxToken(EndOfFile, None, 24, NoValue)];
  }
  lemma MissingQuoteAfterNameFrom13(s: seq<byte>)
    requires Step(s, 13) == StepResult(Some(SyntaxToken(BackSlash, Some("\\"), 13, NoValue)), [], 14)
    requires Step(s, 14) == StepResult(Some(SyntaxToken(OpenObjectCurlyBracket, Some("{"), 14, NoValue)), [], 15)
    requires Step(s, 15) == StepResult(Some(SyntaxToken(OpenArrayBracket, Some("["), 15, NoValue)), [], 16)
    requires Step(s, 16) == StepResult(None, [Diagnostic(TextSpan(16, 8), KeywordMessage, Some(EndOfFileExtractLiteral))], 24)
    requires Step(s, 24) == StepResult(Some(SyntaxToken(EndOfFile, None, 24, NoValue)), [], 24)
    ensures LexFrom(s, 13) == LexOutput([SyntaxToken(BackSlash, Some("\\"), 13, NoValue), SyntaxToken(OpenObjectCurlyBracket, Some("{"), 14, NoValue), SyntaxToken(OpenArrayBracket, Some("["), 15, NoValue), SyntaxToken(EndOfFile, None, 24, NoValue)], [Diagnostic(TextSpan(16, 8), KeywordMessage, Some(EndOfFileExtractLiteral))])
  {
    MissingQuoteAfterNameFrom14(s);
    LexFromUnfolds(s, 13);
    assert LexFrom(s, 13).tokens == [SyntaxToken(BackSlash, Some("\\"), 13, NoValue)] + LexFrom(s, 14).tokens;
    assert LexFrom(s, 13).diagnostics == LexFrom(s, 14).diagnostics;
    assert [SyntaxToken(BackSlash, Some("\\"), 13, NoValue)] + [SyntaxToken(OpenObjectCurlyBracket, Some("{"), 14, NoValue), SyntaxToken(OpenArrayBracket, Some("["), 15, NoValue), SyntaxToken(EndOfFile, None, 24, NoValue)] == [SyntaxToken(BackSlash, Some("\\"), 13, NoValue), SyntaxToken(OpenObjectCurlyBracket, Some("{"), 14, NoValue), SyntaxToken(OpenArrayBracket, Some("["), 15, NoValue), SyntaxToken(EndOfFile, None, 24, NoValue)];
  }
  lemma MissingQuoteAfterNameFrom12(s: seq<byte>)
    requires Step(s, 12) == StepResult(Some(SyntaxToken(BackSlash, Some("\\"), 12, NoValue)), [], 13)
    requires Step(s, 13) == StepResult(Some(SyntaxToken(BackSlash, Some("\\"), 13, NoValue)), [], 14)
    requires Step(s, 14) == StepResult(Some(SyntaxToken(OpenObjectCurlyBracket, Some("{"), 14, NoValue)), [], 15)
    requires Step(s, 15) == StepResult(Some(SyntaxToken(OpenArrayBracket, Some("["), 15, NoValue)), [], 16)
    requires Step(s, 16) == StepResult(None, [Diagnostic(TextSpan(16, 8), KeywordMessage, Some(EndOfFileExtractLiteral))], 24)
    requires Step(s, 24) == StepResult(Some(SyntaxToken(EndOfFile, None, 24, NoValue)), [], 24)
    ensures LexFrom(s, 12) == LexOutput([SyntaxToken(BackSlash, Some("\\"), 12, NoValue), SyntaxToken(BackSlash, Some("\\"), 13, NoValue), SyntaxToken(OpenObjectCurlyBracket, Some("{"), 14, NoValue), SyntaxToken(OpenArrayBracket, Some("["), 15, NoValue), SyntaxToken(EndOfFile, None, 24, NoValue)], [Diagnostic(TextSpan(16, 8), KeywordMessage, Some(EndOfFileExtractLiteral))])
  {
    MissingQuoteAfterNameFrom13(s);
    LexFromUnfolds(s, 12);
    assert LexFrom(s, 12).tokens == [SyntaxToken(BackSlash, Some("\\"), 12, NoValue)] + LexFrom(s, 13).tokens;
    assert LexFrom(s, 12).diagnostics == LexFrom(s, 13).diagnostics;
    assert [SyntaxToken(BackSlash, Some("\\"), 12, NoValue)] + [SyntaxToken(BackSlash, Some("\\"), 13, NoValue), SyntaxToken(OpenObjectCurlyBracket, Some("{"), 14, NoValue), SyntaxToken(OpenArrayBracket, Some("["), 15, NoValue), SyntaxToken(EndOfFile, None, 24, NoValue)] == [SyntaxToken(BackSlash, Some("\\"), 12, NoValue), SyntaxToken(BackSlash, Some("\\"), 13, NoValue), SyntaxToken(OpenObjectCurlyBracket, Some("{"), 14, NoValue), SyntaxToken(OpenArrayBracket, Some("["), 15, NoValue), SyntaxToken(EndOfFile, None, 24, NoValue)];
  }
  lemma MissingQuoteAfterNameFrom11(s: seq<byte>)
    requires Step(s, 11) == StepResult(Some(SyntaxToken(Unknown, Some("^"), 11, NoValue)), [UnknownDiagnostic(11, "^")], 12)
    requires Step(s, 12) == StepResult(Some(SyntaxToken(BackSlash, Some("\\"), 12, NoValue)), [], 13)
    requires Step(s, 13) == StepResult(Some(SyntaxToken(BackSlash, Some("\\"), 13, NoValue)), [], 14)
    requires Step(s, 14) == StepResult(Some(SyntaxToken(OpenObjectCurlyBracket, Some("{"), 14, NoValue)), [], 15)
    requires Step(s, 15) == StepResult(Some(SyntaxToken(OpenArrayBracket, Some("["), 15, NoValue)), [], 16)
    requires Step(s, 16) == StepResult(None, [Diagnostic(TextSpan(16, 8), KeywordMessage, Some(EndOfFileExtractLiteral))], 24)
    requires Step(s, 24) == StepResult(Some(SyntaxToken(EndOfFile, None, 24, NoValue)), [], 24)
    ensures LexFrom(s, 11) == LexOutput([SyntaxToken(Unknown, Some("^"), 11, NoValue), SyntaxToken(BackSlash, Some("\\"), 12, NoValue), SyntaxToken(BackSlash, Some("\\"), 13, NoValue), SyntaxToken(OpenObjectCurlyBracket, Some("{"), 14, NoValue), SyntaxToken(OpenArrayBracket, Some("["), 15, NoValue), SyntaxToken(EndOfFile, None, 24, NoValue)], [UnknownDiagnostic(11, "^"), Diagnostic(TextSpan(16, 8), KeywordMessage, Some(EndOfFileExtractLiteral))])
  {
    MissingQuoteAfterNameFrom12(s);
    LexFromUnfolds(s, 11);
    assert LexFrom(s, 11).tokens == [SyntaxToken(Unknown, Some("^"), 11, NoValue)] + LexFrom(s, 12).tokens;
    assert LexFrom(s, 11).diagnostics == [UnknownDiagnostic(11, "^")] + LexFrom(s, 12).diagnostics;
    assert [SyntaxToken(Unknown, Some("^"), 11, NoValue)] + [SyntaxToken(BackSlash, Some("\\"), 12, NoValue), SyntaxToken(BackSlash, Some("\\"), 13, NoValue), SyntaxToken(OpenObjectCurlyBracket, Some("{"), 14, NoValue), SyntaxToken(OpenArrayBracket, Some("["), 15, NoValue), SyntaxToken(EndOfFile, None, 24, NoValue)] == [SyntaxToken(Unknown, Some("^"), 11, NoValue), SyntaxToken(BackSlash, Some("\\"), 12, NoValue), SyntaxToken(BackSlash, Some("\\"), 13, NoValue), SyntaxToken(OpenObjectCurlyBracket, Some("{"), 14, NoValue), SyntaxToken(OpenArrayBracket, Some("["), 15, NoValue), SyntaxToken(EndOfFile, None, 24, NoValue)];
    assert [UnknownDiagnostic(11, "^")] + [Diagnostic(TextSpan(16, 8), KeywordMessage, Some(EndOfFileExtractLiteral))] == [UnknownDiagnostic(11, "^"), Diagnostic(TextSpan(16, 8), KeywordMessage, Some(EndOfFileExtractLiteral))];
  }
  lemma MissingQuoteAfterNameFrom0(s: seq<byte>)
    requires Step(s, 0) == StepResult(Some(SyntaxToken(Literal, Some("pattern: "), 0, NoValue)), [], 11)
    requires Step(s, 11) == StepResult(Some(SyntaxToken(Unknown, Some("^"), 11, NoValue)), [UnknownDiagnostic(11, "^")], 12)
    requires Step(s, 12) == StepResult(Some(SyntaxToken(BackSlash, Some("\\"), 12, NoValue)), [], 13)
    requires Step(s, 13) == StepResult(Some(SyntaxToken(BackSlash, Some("\\"), 13, NoValue)), [], 14)
    requires Step(s, 14) == StepResult(Some(SyntaxToken(OpenObjectCurlyBracket, Some("{"), 14, NoValue)), [], 15)
    requires Step(s, 15) == StepResult(Some(SyntaxToken(OpenArrayBracket, Some("["), 15, NoValue)), [], 16)
    requires Step(s, 16) == StepResult(None, [Diagnostic(TextSpan(16, 8), KeywordMessage, Some(EndOfFileExtractLiteral))], 24)
    requires Step(s, 24) == StepResult(Some(SyntaxToken(EndOfFile, None, 24, NoValue)), [], 24)
    ensures LexFrom(s, 0) == LexOutput([SyntaxToken(Literal, Some("pattern: "), 0, NoValue), SyntaxToken(Unknown, Some("^"), 11, NoValue), SyntaxToken(BackSlash, Some("\\"), 12, NoValue), SyntaxToken(BackSlash, Some("\\"), 13, NoValue), SyntaxToken(OpenObjectCurlyBracket, Some("{"), 14, NoValue), SyntaxToken(OpenArrayBracket, Some("["), 15, NoValue), SyntaxToken(EndOfFile, None, 24, NoValue)], [UnknownDiagnostic(11, "^"), Diagnostic(TextSpan(16, 8), KeywordMessage, Some(EndOfFileExtractLiteral))])
  {
    MissingQuoteAfterNameFrom11(s);
    LexFromUnfolds(s, 0);
    assert LexFrom(s, 0).tokens == [SyntaxToken(Literal, Some("pattern: "), 0, NoValue)] + LexFrom(s, 11).tokens;
    assert LexFrom(s, 0).diagnostics == LexFrom(s, 11).diagnostics;
    assert [SyntaxToken(Literal, Some("pattern: "), 0, NoValue)] + [SyntaxToken(Unknown, Some("^"), 11, NoValue), SyntaxToken(BackSlash, Some("\\"), 12, NoValue), SyntaxToken(BackSlash, Some("\\"), 13, NoValue), SyntaxToken(OpenObjectCurlyBracket, Some("{"), 14, NoValue), SyntaxToken(OpenArrayBracket, Some("["), 15, NoValue), SyntaxToken(EndOfFile, None, 24, NoValue)] == [SyntaxToken(Literal, Some("pattern: "), 0, NoValue), SyntaxToken(Unknown, Some("^"), 11, NoValue), SyntaxToken(BackSlash, Some("\\"), 12, NoValue), SyntaxToken(BackSlash, Some("\\"), 13, NoValue), SyntaxToken(OpenObjectCurlyBracket, Some("{"), 14, NoValue), SyntaxToken(OpenArrayBracket, Some("["), 15, NoValue), SyntaxToken(EndOfFile, None, 24, NoValue)];
  }

  /** With the quote after the name missing, the first diagnostic is an unknown character and the last the end of input inside a letter run (JsonLexerTest.cs, lines 77-90, on a shorter pattern). */
  lemma MissingQuoteAfterName(s: seq<byte>)
    requires s == MissingQuoteAfterNameInput
    ensures LexFrom(s, 0)
         == LexOutput([SyntaxToken(Literal, Some("pattern: "), 0, NoValue),
                      SyntaxToken(Unknown, Some("^"), 11, NoValue),
                      SyntaxToken(BackSlash, Some("\\"), 12, NoValue),
                      SyntaxToken(BackSlash, Some("\\"), 13, NoValue),
                      SyntaxToken(OpenObjectCurlyBracket, Some("{"), 14, NoValue),
                      SyntaxToken(OpenArrayBracket, Some("["), 15, NoValue),
                      SyntaxToken(EndOfFile, None, 24, NoValue)],
                      [UnknownDiagnostic(11, "^"),
                       Diagnostic(TextSpan(16, 8), KeywordMessage, Some(EndOfFileExtractLiteral))])
  {
    MissingQuoteAfterNamePass0(s);
    MissingQuoteAfterNamePass1(s);
    MissingQuoteAfterNamePass2(s);
    MissingQuoteAfterNamePass3(s);
    MissingQuoteAfterNamePass4(s);
    MissingQuoteAfterNamePass5(s);
    MissingQuoteAfterNamePass6(s);
    MissingQuoteAfterNameFrom0(s);
  }

  /** An object whose pattern ends with two escaped backslashes. */
  const ObjectWithDoubleBackslashInput: seq<byte> := [123, 34, 112, 34, 58, 32, 34, 94, 92, 92, 92, 92, 34, 125]

  lemma ObjectWithDoubleBackslashNoStop2To3(s: seq<byte>)
    requires s == ObjectWithDoubleBackslashInput
    ensures forall k :: 2 <= k < 3 ==> !LiteralStopsAt(s, 2, k)
  {
    assert s[2] == 112;
    forall k | 2 <= k < 3 ensures !LiteralStopsAt(s, 2, k) {
      assert k == 2;
    }
  }
  lemma ObjectWithDoubleBackslashNoStop7To12(s: seq<byte>)
    requires s == ObjectWithDoubleBackslashInput
    ensures forall k :: 7 <= k < 12 ==> !LiteralStopsAt(s, 7, k)
  {
    assert s[7] == 94 && s[8] == 92 && s[9] == 92 && s[10] == 92 && s[11] == 92;
    forall k | 7 <= k < 12 ensures !LiteralStopsAt(s, 7, k) {
      assert k == 7 || k == 8 || k == 9 || k == 10 || k == 11;
    }
  }
  lemma ObjectWithDoubleBackslashChars7To12(s: seq<byte>)
    requires s == ObjectWithDoubleBackslashInput
    ensures Chars(s[7..12]) == "^\\\\\\\\"
  {
    assert s[7] == 94 && s[8] == 92 && s[9] == 92 && s[10] == 92 && s[11] == 92;
    forall k | 0 <= k < 5 ensures Chars(s[7..12])[k] == "^\\\\\\\\"[k] {
      assert k == 0 || k == 1 || k == 2 || k == 3 || k == 4;
    }
    assert Chars(s[7..12]) == "^\\\\\\\\";
  }
  lemma ObjectWithDoubleBackslashPass0(s: seq<byte>)
    requires s == ObjectWithDoubleBackslashInput
    ensures Step(s, 0) == StepResult(Some(SyntaxToken(OpenObjectCurlyBracket, Some("{"), 0, NoValue)), [], 1)
  {
    assert s[0] == 123 && CharOf(s[0]) == '{';
  }
  lemma ObjectWithDoubleBackslashPass1(s: seq<byte>)
    requires s == ObjectWithDoubleBackslashInput
    ensures Step(s, 1) == StepResult(Some(SyntaxToken(Literal, Some("p"), 1, NoValue)), [], 4)
  {
    assert s[1] == 34 && CharOf(s[1]) == '"';
    ObjectWithDoubleBackslashNoStop2To3(s);
    assert s[2] == 112;
    forall k | 0 <= k < 1 ensures Chars(s[2..3])[k] == "p"[k] {
      assert k == 0;
    }
    assert Chars(s[2..3]) == "p";
    assert s[3] == 34;
    LiteralClosesAt(s, 1, 2, 3);
  }
  lemma ObjectWithDoubleBackslashPass2(s: seq<byte>)
    requires s == ObjectWithDoubleBackslashInput
    ensures Step(s, 4) == StepResult(Some(SyntaxToken(Colon, Some(":"), 4, NoValue)), [], 5)
  {
    assert s[4] == 58 && CharOf(s[4]) == ':';
  }
  lemma ObjectWithDoubleBackslashPass3(s: seq<byte>)
    requires s == ObjectWithDoubleBackslashInput
    ensures Step(s, 5) == StepResult(Some(SyntaxToken(Whitespace, Some(" "), 5, NoValue)), [], 6)
  {
    assert s[5] == 32 && CharOf(s[5]) == ' ';
    assert s[5] == 32 && s[6] == 34;
    assert WhitespaceRunEnd(s, 6) == 6;
    assert s[5] == 32;
    forall k | 0 <= k < 1 ensures Chars(s[5..6])[k] == " "[k] {
      assert k == 0;
    }
    assert Chars(s[5..6]) == " ";
  }
  lemma ObjectWithDoubleBackslashPass4(s: seq<byte>)
    requires s == ObjectWithDoubleBackslashInput
    ensures Step(s, 6) == StepResult(Some(SyntaxToken(Literal, Some("^\\\\\\\\"), 6, NoValue)), [], 13)
  {
    assert s[6] == 34 && CharOf(s[6]) == '"';
    ObjectWithDoubleBackslashNoStop7To12(s);
    ObjectWithDoubleBackslashChars7To12(s);
    assert s[12] == 34;
    LiteralClosesAt(s, 6, 7, 12);
  }
  lemma ObjectWithDoubleBackslashPass5(s: seq<byte>)
    requires s == ObjectWithDoubleBackslashInput
    ensures Step(s, 13) == StepResult(Some(SyntaxToken(CloseObjectCurlyBracket, Some("}"), 13, NoValue)), [], 14)
  {
    assert s[13] == 125 && CharOf(s[13]) == '}';
  }
  lemma ObjectWithDoubleBackslashFrom14(s: seq<byte>)
    requires Step(s, 14) == StepResult(Some(SyntaxToken(EndOfFile, None, 14, NoValue)), [], 14)
    ensures LexFrom(s, 14) == LexOutput([SyntaxToken(EndOfFile, None, 14, NoValue)], [])
  {
    LexFromUnfolds(s, 14);
  }
  lemma ObjectWithDoubleBackslashFrom13(s: seq<byte>)
    requires Step(s, 13) == StepResult(Some(SyntaxToken(CloseObjectCurlyBracket, Some("}"), 13, NoValue)), [], 14)
    requires Step(s, 14) == StepResult(Some(SyntaxToken(EndOfFile, None, 14, NoValue)), [], 14)
    ensures LexFrom(s, 13) == LexOutput([SyntaxToken(CloseObjectCurlyBracket, Some("}"), 13, NoValue), SyntaxToken(EndOfFile, None, 14, NoValue)], [])
  {
    ObjectWithDoubleBackslashFrom14(s);
    LexFromUnfolds(s, 13);
    assert LexFrom(s, 13).tokens == [SyntaxToken(CloseObjectCurlyBracket, Some("}"), 13, NoValue)] + LexFrom(s, 14).tokens;
    assert LexFrom(s, 13).diagnostics == LexFrom(s, 14).diagnostics;
    assert [SyntaxToken(CloseObjectCurlyBracket, Some("}"), 13, NoValue)] + [SyntaxToken(EndOfFile, None, 14, NoValue)] == [SyntaxToken(CloseObjectCurlyBracket, Some("}"), 13, NoValue), SyntaxToken(EndOfFile, None, 14, NoValue)];
  }
  lemma ObjectWithDoubleBackslashFrom6(s: seq<byte>)
    requires Step(s, 6) == StepResult(Some(SyntaxToken(Literal, Some("^\\\\\\\\"), 6, NoValue)), [], 13)
    requires Step(s, 13) == StepResult(Some(SyntaxToken(CloseObjectCurlyBracket, Some("}"), 13, NoValue)), [], 14)
    requires Step(s, 14) == StepResult(Some(SyntaxToken(EndOfFile, None, 14, NoValue)), [], 14)
    ensures LexFrom(s, 6) == LexOutput([SyntaxToken(Literal, Some("^\\\\\\\\"), 6, NoValue), SyntaxToken(CloseObjectCurlyBracket, Some("}"), 13, NoValue), SyntaxToken(EndOfFile, None, 14, NoValue)], [])
  {
    ObjectWithDoubleBackslashFrom13(s);
    LexFromUnfolds(s, 6);
    assert LexFrom(s, 6).tokens == [SyntaxToken(Literal, Some("^\\\\\\\\"), 6, NoValue)] + LexFrom(s, 13).tokens;
    assert LexFrom(s, 6).diagnostics == LexFrom(s, 13).diagnostics;
    assert [SyntaxToken(Literal, Some("^\\\\\\\\"), 6, NoValue)] + [SyntaxToken(CloseObjectCurlyBracket, Some("}"), 13, NoValue), SyntaxToken(EndOfFile, None, 14, NoValue)] == [SyntaxToken(Literal, Some("^\\\\\\\\"), 6, NoValue), SyntaxToken(CloseObjectCurlyBracket, Some("}"), 13, NoValue), SyntaxToken(EndOfFile, None, 14, NoValue)];
  }
  lemma ObjectWithDoubleBackslashFrom5(s: seq<byte>)
    requires Step(s, 5) == StepResult(Some(SyntaxToken(Whitespace, Some(" "), 5, NoValue)), [], 6)
    requires Step(s, 6) == StepResult(Some(SyntaxToken(Literal, Some("^\\\\\\\\"), 6, NoValue)), [], 13)
    requires Step(s, 13) == StepResult(Some(SyntaxToken(CloseObjectCurlyBracket, Some("}"), 13, NoValue)), [], 14)
    requires Step(s, 14) == StepResult(Some(SyntaxToken(EndOfFile, None, 14, NoValue)), [], 14)
    ensures LexFrom(s, 5) == LexOutput([SyntaxToken(Whitespace, Some(" "), 5, NoValue), SyntaxToken(Literal, Some("^\\\\\\\\"), 6, NoValue), SyntaxToken(CloseObjectCurlyBracket, Some("}"), 13, NoValue), SyntaxToken(EndOfFile, None, 14, NoValue)], [])
  {
    ObjectWithDoubleBackslashFrom6(s);
    LexFromUnfolds(s, 5);
    assert LexFrom(s, 5).tokens == [SyntaxToken(Whitespace, Some(" "), 5, NoValue)] + LexFrom(s, 6).tokens;
    assert LexFrom(s, 5).diagnostics == LexFrom(s, 6).diagnostics;
    assert [SyntaxToken(Whitespace, Some(" "), 5, NoValue)] + [SyntaxToken(Literal, Some("^\\\\\\\\"), 6, NoValue), SyntaxToken(CloseObjectCurlyBracket, Some("}"), 13, NoValue), SyntaxToken(EndOfFile, None, 14, NoValue)] == [SyntaxToken(Whitespace, Some(" "), 5, NoValue), SyntaxToken(Literal, Some("^\\\\\\\\"), 6, NoValue), SyntaxToken(CloseObjectCurlyBracket, Some("}"), 13, NoValue), SyntaxToken(EndOfFile, None, 14, NoValue)];
  }
  lemma ObjectWithDoubleBackslashFrom4(s: seq<byte>)
    requires Step(s, 4) == StepResult(Some(SyntaxToken(Colon, Some(":"), 4, NoValue)), [], 5)
    requires Step(s, 5) == StepResult(Some(SyntaxToken(Whitespace, Some(" "), 5, NoValue)), [], 6)
    requires Step(s, 6) == StepResult(Some(SyntaxToken(Literal, Some("^\\\\\\\\"), 6, NoValue)), [], 13)
    requires Step(s, 13) == StepResult(Some(SyntaxToken(CloseObjectCurlyBracket, Some("}"), 13, NoValue)), [], 14)
    requires Step(s, 14) == StepResult(Some(SyntaxToken(EndOfFile, None, 14, NoValue)), [], 14)
    ensures LexFrom(s, 4) == LexOutput([SyntaxToken(Colon, Some(":"), 4, NoValue), SyntaxToken(Whitespace, Some(" "), 5, NoValue), SyntaxToken(Literal, Some("^\\\\\\\\"), 6, NoValue), SyntaxToken(CloseObjectCurlyBracket, Some("}"), 13, NoValue), SyntaxToken(EndOfFile, None, 14, NoValue)], [])
  {
    ObjectWithDoubleBackslashFrom5(s);
    LexFromUnfolds(s, 4);
    assert LexFrom(s, 4).tokens == [SyntaxToken(Colon, Some(":"), 4, NoValue)] + LexFrom(s, 5).tokens;
    assert LexFrom(s, 4).diagnostics == LexFrom(s, 5).diagnostics;
    assert [SyntaxToken(Colon, Some(":"), 4, NoValue)] + [SyntaxToken(Whitespace, Some(" "), 5, NoValue), SyntaxToken(Literal, Some("^\\\\\\\\"), 6, NoValue), SyntaxToken(CloseObjectCurlyBracket, Some("}"), 13, NoValue), SyntaxToken(EndOfFile, None, 14, NoValue)] == [SyntaxToken(Colon, Some(":"), 4, NoValue), SyntaxToken(Whitespace, Some(" "), 5, NoValue), SyntaxToken(Literal, Some("^\\\\\\\\"), 6, NoValue), SyntaxToken(CloseObjectCurlyBracket, Some("}"), 13, NoValue), SyntaxToken(EndOfFile, None, 14, NoValue)];
  }
  lemma ObjectWithDoubleBackslashFrom1(s: seq<byte>)
    requires Step(s, 1) == StepResult(Some(SyntaxToken(Literal, Some("p"), 1, NoValue)), [], 4)
    requires Step(s, 4) == StepResult(Some(SyntaxToken(Colon, Some(":"), 4, NoValue)), [], 5)
    requires Step(s, 5) == StepResult(Some(SyntaxToken(Whitespace, Some(" "), 5, NoValue)), [], 6)
    requires Step(s, 6) == StepResult(Some(SyntaxToken(Literal, Some("^\\\\\\\\"), 6, NoValue)), [], 13)
    requires Step(s, 13) == StepResult(Some(SyntaxToken(CloseObjectCurlyBracket, Some("}"), 13, NoValue)), [], 14)
    requires Step(s, 14) == StepResult(Some(SyntaxToken(EndOfFile, None, 14, NoValue)), [], 14)
    ensures LexFrom(s, 1) == LexOutput([SyntaxToken(Literal, Some("p"), 1, NoValue), SyntaxToken(Colon, Some(":"), 4, NoValue), SyntaxToken(Whitespace, Some(" "), 5, NoValue), SyntaxToken(Literal, Some("^\\\\\\\\"), 6, NoValue), SyntaxToken(CloseObjectCurlyBracket, Some("}"), 13, NoValue), SyntaxToken(EndOfFile, None, 14, NoValue)], [])
  {
    ObjectWithDoubleBackslashFrom4(s);
    LexFromUnfolds(s, 1);
    assert LexFrom(s, 1).tokens == [SyntaxToken(Literal, Some("p"), 1, NoValue)] + LexFrom(s, 4).tokens;
    assert LexFrom(s, 1).diagnostics == LexFrom(s, 4).diagnostics;
    assert [SyntaxToken(Literal, Some("p"), 1, NoValue)] + [SyntaxToken(Colon, Some(":"), 4, NoValue), SyntaxToken(Whitespace, Some(" "), 5, NoValue), SyntaxToken(Literal, Some("^\\\\\\\\"), 6, NoValue), SyntaxToken(CloseObjectCurlyBracket, Some("}"), 13, NoValue), SyntaxToken(EndOfFile, None, 14, NoValue)] == [SyntaxToken(Literal, Some("p"), 1, NoValue), SyntaxToken(Colon, Some(":"), 4, NoValue), SyntaxToken(Whitespace, Some(" "), 5, NoValue), SyntaxToken(Literal, Some("^\\\\\\\\"), 6, NoValue), SyntaxToken(CloseObjectCurlyBracket, Some("}"), 13, NoValue), SyntaxToken(EndOfFile, None, 14, NoValue)];
  }
  lemma ObjectWithDoubleBackslashFrom0(s: seq<byte>)
    requires Step(s, 0) == StepResult(Some(SyntaxToken(OpenObjectCurlyBracket, Some("{"), 0, NoValue)), [], 1)
    requires Step(s, 1) == StepResult(Some(SyntaxToken(Literal, Some("p"), 1, NoValue)), [], 4)
    requires Step(s, 4) == StepResult(Some(SyntaxToken(Colon, Some(":"), 4, NoValue)), [], 5)
    requires Step(s, 5) == StepResult(Some(SyntaxToken(Whitespace, Some(" "), 5, NoValue)), [], 6)
    requires Step(s, 6) == StepResult(Some(SyntaxToken(Literal, Some("^\\\\\\\\"), 6, NoValue)), [], 13)
    requires Step(s, 13) == StepResult(Some(SyntaxToken(CloseObjectCurlyBracket, Some("}"), 13, NoValue)), [], 14)
    requires Step(s, 14) == StepResult(Some(SyntaxToken(EndOfFile, None, 14, NoValue)), [], 14)
    ensures LexFrom(s, 0) == LexOutput([SyntaxToken(OpenObjectCurlyBracket, Some("{"), 0, NoValue), SyntaxToken(Literal, Some("p"), 1, NoValue), SyntaxToken(Colon, Some(":"), 4, NoValue), SyntaxToken(Whitespace, Some(" "), 5, NoValue), SyntaxToken(Literal, Some("^\\\\\\\\"), 6, NoValue), SyntaxToken(CloseObjectCurlyBracket, Some("}"), 13, NoValue), SyntaxToken(EndOfFile, None, 14, NoValue)], [])
  {
    ObjectWithDoubleBackslashFrom1(s);
    LexFromUnfolds(s, 0);
    assert LexFrom(s, 0).tokens == [SyntaxToken(OpenObjectCurlyBracket, Some("{"), 0, NoValue)] + LexFrom(s, 1).tokens;
    assert LexFrom(s, 0).diagnostics == LexFrom(s, 1).diagnostics;
    assert [SyntaxToken(OpenObjectCurlyBracket, Some("{"), 0, NoValue)] + [SyntaxToken(Literal, Some("p"), 1, NoValue), SyntaxToken(Colon, Some(":"), 4, NoValue), SyntaxToken(Whitespace, Some(" "), 5, NoValue), SyntaxToken(Literal, Some("^\\\\\\\\"), 6, NoValue), SyntaxToken(CloseObjectCurlyBracket, Some("}"), 13, NoValue), SyntaxToken(EndOfFile, None, 14, NoValue)] == [SyntaxToken(OpenObjectCurlyBracket, Some("{"), 0, NoValue), SyntaxToken(Literal, Some("p"), 1, NoValue), SyntaxToken(Colon, Some(":"), 4, NoValue), SyntaxToken(Whitespace, Some(" "), 5, NoValue), SyntaxToken(Literal, Some("^\\\\\\\\"), 6, NoValue), SyntaxToken(CloseObjectCurlyBracket, Some("}"), 13, NoValue), SyntaxToken(EndOfFile, None, 14, NoValue)];
  }

  /** A pattern ending in two backslashes is closed by the quote after them, so the object lexes without diagnostics (JsonLexerTest.cs, lines 92-109, on a shorter object). */
  lemma ObjectWithDoubleBackslash(s: seq<byte>)
    requires s == ObjectWithDoubleBackslashInput
    ensures LexFrom(s, 0)
         == LexOutput([SyntaxToken(OpenObjectCurlyBracket, Some("{"), 0, NoValue),
                      SyntaxToken(Literal, Some("p"), 1, NoValue),
                      SyntaxToken(Colon, Some(":"), 4, NoValue),
                      SyntaxToken(Whitespace, Some(" "), 5, NoValue),
                      SyntaxToken(Literal, Some("^\\\\\\\\"), 6, NoValue),
                      SyntaxToken(CloseObjectCurlyBracket, Some("}"), 13, NoValue),
                      SyntaxToken(EndOfFile, None, 14, NoValue)],
                      [])
  {
    ObjectWithDoubleBackslashPass0(s);
    ObjectWithDoubleBackslashPass1(s);
    ObjectWithDoubleBackslashPass2(s);
    ObjectWithDoubleBackslashPass3(s);
    ObjectWithDoubleBackslashPass4(s);
    ObjectWithDoubleBackslashPass5(s);
    ObjectWithDoubleBackslashFrom0(s);
  }

  /** A literal with an escaped quote inside. */
  const EscapedQuoteInput: seq<byte> := [34, 97, 92, 34, 98, 34]

  lemma EscapedQuoteNoStop1To5(s: seq<byte>)
    requires s == EscapedQuoteInput
    ensures forall k :: 1 <= k < 5 ==> !LiteralStopsAt(s, 1, k)
  {
    assert s[1] == 97 && s[2] == 92 && s[3] == 34 && s[4] == 98;
    forall k | 1 <= k < 5 ensures !LiteralStopsAt(s, 1, k) {
      assert k == 1 || k == 2 || k == 3 || k == 4;
      if k == 3 {
        assert s[1] == 97 && s[2] == 92;
        forall k | 0 <= k < 2 ensures Chars(s[1..3])[k] == "a\\"[k] {
          assert k == 0 || k == 1;
        }
        assert Chars(s[1..3]) == "a\\";
      }
    }
  }
  lemma EscapedQuoteChars1To5(s: seq<byte>)
    requires s == EscapedQuoteInput
    ensures Chars(s[1..5]) == "a\\\"b"
  {
    assert s[1] == 97 && s[2] == 92 && s[3] == 34 && s[4] == 98;
    forall k | 0 <= k < 4 ensures Chars(s[1..5])[k] == "a\\\"b"[k] {
      assert k == 0 || k == 1 || k == 2 || k == 3;
    }
    assert Chars(s[1..5]) == "a\\\"b";
  }
  lemma EscapedQuotePass0(s: seq<byte>)
    requires s == EscapedQuoteInput
    ensures Step(s, 0) == StepResult(Some(SyntaxToken(Literal, Some("a\\\"b"), 0, NoValue)), [], 6)
  {
    assert s[0] == 34 && CharOf(s[0]) == '"';
    EscapedQuoteNoStop1To5(s);
    EscapedQuoteChars1To5(s);
    assert s[5] == 34;
    LiteralClosesAt(s, 0, 1, 5);
  }
  lemma EscapedQuoteFrom6(s: seq<byte>)
    requires Step(s, 6) == StepResult(Some(SyntaxToken(EndOfFile, None, 6, NoValue)), [], 6)
    ensures LexFrom(s, 6) == LexOutput([SyntaxToken(EndOfFile, None, 6, NoValue)], [])
  {
    LexFromUnfolds(s, 6);
  }
  lemma EscapedQuoteFrom0(s: seq<byte>)
    requires Step(s, 0) == StepResult(Some(SyntaxToken(Literal, Some("a\\\"b"), 0, NoValue)), [], 6)
    requires Step(s, 6) == StepResult(Some(SyntaxToken(EndOfFile, None, 6, NoValue)), [], 6)
    ensures LexFrom(s, 0) == LexOutput([SyntaxToken(Literal, Some("a\\\"b"), 0, NoValue), SyntaxToken(EndOfFile, None, 6, NoValue)], [])
  {
    EscapedQuoteFrom6(s);
    LexFromUnfolds(s, 0);
    assert LexFrom(s, 0).tokens == [SyntaxToken(Literal, Some("a\\\"b"), 0, NoValue)] + LexFrom(s, 6).tokens;
    assert LexFrom(s, 0).diagnostics == LexFrom(s, 6).diagnostics;
    assert [SyntaxToken(Literal, Some("a\\\"b"), 0, NoValue)] + [SyntaxToken(EndOfFile, None, 6, NoValue)] == [SyntaxToken(Literal, Some("a\\\"b"), 0, NoValue), SyntaxToken(EndOfFile, None, 6, NoValue)];
  }

  /** A quote after a single backslash does not close a literal: the text keeps both. */
  lemma EscapedQuote(s: seq<byte>)
    requires s == EscapedQuoteInput
    ensures LexFrom(s, 0)
         == LexOutput([SyntaxToken(Literal, Some("a\\\"b"), 0, NoValue),
                      SyntaxToken(EndOfFile, None, 6, NoValue)],
                      [])
  {
    EscapedQuotePass0(s);
    EscapedQuoteFrom0(s);
  }

  /** A literal with an escaped backslash and an escaped quote. */
  const ThreeBackslashesCloseInput: seq<byte> := [34, 97, 92, 92, 92, 34, 98, 34]

  lemma ThreeBackslashesCloseNoStop1To5(s: seq<byte>)
    requires s == ThreeBackslashesCloseInput
    ensures forall k :: 1 <= k < 5 ==> !LiteralStopsAt(s, 1, k)
  {
    assert s[1] == 97 && s[2] == 92 && s[3] == 92 && s[4] == 92;
    forall k | 1 <= k < 5 ensures !LiteralStopsAt(s, 1, k) {
      assert k == 1 || k == 2 || k == 3 || k == 4;
    }
  }
  lemma ThreeBackslashesCloseChars1To5(s: seq<byte>)
    requires s == ThreeBackslashesCloseInput
    ensures Chars(s[1..5]) == "a\\\\\\"
  {
    assert s[1] == 97 && s[2] == 92 && s[3] == 92 && s[4] == 92;
    forall k | 0 <= k < 4 ensures Chars(s[1..5])[k] == "a\\\\\\"[k] {
      assert k == 0 || k == 1 || k == 2 || k == 3;
    }
    assert Chars(s[1..5]) == "a\\\\\\";
  }
  lemma ThreeBackslashesClosePass0(s: seq<byte>)
    requires s == ThreeBackslashesCloseInput
    ensures Step(s, 0) == StepResult(Some(SyntaxToken(Literal, Some("a\\\\\\"), 0, NoValue)), [], 6)
  {
    assert s[0] == 34 && CharOf(s[0]) == '"';
    ThreeBackslashesCloseNoStop1To5(s);
    ThreeBackslashesCloseChars1To5(s);
    assert s[5] == 34;
    LiteralClosesAt(s, 0, 1, 5);
  }
  lemma ThreeBackslashesClosePass1(s: seq<byte>)
    requires s == ThreeBackslashesCloseInput
    ensures Step(s, 6) == StepResult(None, [Diagnostic(TextSpan(6, 2), KeywordMessage, Some(EndOfFileExtractLiteral))], 8)
  {
    assert s[6] == 98 && CharOf(s[6]) == 'b';
    assert s[6] == 98 && s[7] == 34;
    forall k | 6 < k < 8 ensures !IsKeywordDelimiter(CharOf(s[k])) {
      assert k == 7;
    }
    forall k | 0 <= k < 2 ensures Chars(s[6..8])[k] == "b\""[k] {
      assert k == 0 || k == 1;
    }
    assert Chars(s[6..8]) == "b\"";
    UnterminatedKeywordPass(s, 6);
  }
  lemma ThreeBackslashesCloseFrom8(s: seq<byte>)
    requires Step(s, 8) == StepResult(Some(SyntaxToken(EndOfFile, None, 8, NoValue)), [], 8)
    ensures LexFrom(s, 8) == LexOutput([SyntaxToken(EndOfFile, None, 8, NoValue)], [])
  {
    LexFromUnfolds(s, 8);
  }
  lemma ThreeBackslashesCloseFrom6(s: seq<byte>)
    requires Step(s, 6) == StepResult(None, [Diagnostic(TextSpan(6, 2), KeywordMessage, Some(EndOfFileExtractLiteral))], 8)
    requires Step(s, 8) == StepResult(Some(SyntaxToken(EndOfFile, None, 8, NoValue)), [], 8)
    ensures LexFrom(s, 6) == LexOutput([SyntaxToken(EndOfFile, None, 8, NoValue)], [Diagnostic(TextSpan(6, 2), KeywordMessage, Some(EndOfFileExtractLiteral))])
  {
    ThreeBackslashesCloseFrom8(s);
    LexFromUnfolds(s, 6);
    assert LexFrom(s, 6).tokens == LexFrom(s, 8).tokens;
    assert LexFrom(s, 6).diagnostics == [Diagnostic(TextSpan(6, 2), KeywordMessage, Some(EndOfFileExtractLiteral))] + LexFrom(s, 8).diagnostics;
  }
  lemma ThreeBackslashesCloseFrom0(s: seq<byte>)
    requires Step(s, 0) == StepResult(Some(SyntaxToken(Literal, Some("a\\\\\\"), 0, NoValue)), [], 6)
    requires Step(s, 6) == StepResult(None, [Diagnostic(TextSpan(6, 2), KeywordMessage, Some(EndOfFileExtractLiteral))], 8)
    requires Step(s, 8) == StepResult(Some(SyntaxToken(EndOfFile, None, 8, NoValue)), [], 8)
    ensures LexFrom(s, 0) == LexOutput([SyntaxToken(Literal, Some("a\\\\\\"), 0, NoValue), SyntaxToken(EndOfFile, None, 8, NoValue)], [Diagnostic(TextSpan(6, 2), KeywordMessage, Some(EndOfFileExtractLiteral))])
  {
    ThreeBackslashesCloseFrom6(s);
    LexFromUnfolds(s, 0);
    assert LexFrom(s, 0).tokens == [SyntaxToken(Literal, Some("a\\\\\\"), 0, NoValue)] + LexFrom(s, 6).tokens;
    assert LexFrom(s, 0).diagnostics == LexFrom(s, 6).diagnostics;
    assert [SyntaxToken(Literal, Some("a\\\\\\"), 0, NoValue)] + [SyntaxToken(EndOfFile, None, 8, NoValue)] == [SyntaxToken(Literal, Some("a\\\\\\"), 0, NoValue), SyntaxToken(EndOfFile, None, 8, NoValue)];
  }

  /** A quote after three backslashes closes the literal, because only the two characters before it are looked at; the rest is then read as a letter run that the input ends inside. */
  lemma ThreeBackslashesClose(s: seq<byte>)
    requires s == ThreeBackslashesCloseInput
    ensures LexFrom(s, 0)
         == LexOutput([SyntaxToken(Literal, Some("a\\\\\\"), 0, NoValue),
                      SyntaxToken(EndOfFile, None, 8, NoValue)],
                      [Diagnostic(TextSpan(6, 2), KeywordMessage, Some(EndOfFileExtractLiteral))])
  {
    ThreeBackslashesClosePass0(s);
    ThreeBackslashesClosePass1(s);
    ThreeBackslashesCloseFrom0(s);
  }

  /** Two booleans, one in capitals. */
  const BooleanWordsInput: seq<byte> := [84, 82, 85, 69, 44, 102, 97, 108, 115, 101, 32]

  lemma BooleanWordsPass0(s: seq<byte>)
    requires s == BooleanWordsInput
    ensures Step(s, 0) == StepResult(Some(SyntaxToken(Boolean, Some("TRUE"), 0, BoolValue(true))), [], 5)
  {
    assert s[0] == 84 && CharOf(s[0]) == 'T';
    assert s[0] == 84 && s[1] == 82 && s[2] == 85 && s[3] == 69 && s[4] == 44;
    forall k | 0 < k < 4 ensures !IsKeywordDelimiter(CharOf(s[k])) {
      assert k == 1 || k == 2 || k == 3;
    }
    assert s[0] == 84 && s[1] == 82 && s[2] == 85 && s[3] == 69;
    forall k | 0 <= k < 4 ensures Chars(s[0..4])[k] == "TRUE"[k] {
      assert k == 0 || k == 1 || k == 2 || k == 3;
    }
    assert Chars(s[0..4]) == "TRUE";
    KeywordEndsAt(s, 0, 4);
    forall i | 0 <= i < 4
      ensures ToLowerAscii("TRUE"[i]) == ToLowerAscii("true"[i])
    {
      assert i == 0 || i == 1 || i == 2 || i == 3;
    }
    assert EqualsIgnoreCase("TRUE", "true");
    assert ToLowerAscii("TRUE"[0]) != ToLowerAscii("null"[0]);
  }
  lemma BooleanWordsPass1(s: seq<byte>)
    requires s == BooleanWordsInput
    ensures Step(s, 5) == StepResult(Some(SyntaxToken(Boolean, Some("false"), 5, BoolValue(false))), [], 11)
  {
    assert s[5] == 102 && CharOf(s[5]) == 'f';
    assert s[5] == 102 && s[6] == 97 && s[7] == 108 && s[8] == 115 && s[9] == 101 && s[10] == 32;
    forall k | 5 < k < 10 ensures !IsKeywordDelimiter(CharOf(s[k])) {
      assert k == 6 || k == 7 || k == 8 || k == 9;
    }
    assert s[5] == 102 && s[6] == 97 && s[7] == 108 && s[8] == 115 && s[9] == 101;
    forall k | 0 <= k < 5 ensures Chars(s[5..10])[k] == "false"[k] {
      assert k == 0 || k == 1 || k == 2 || k == 3 || k == 4;
    }
    assert Chars(s[5..10]) == "false";
    KeywordEndsAt(s, 5, 10);
    forall i | 0 <= i < 5
      ensures ToLowerAscii("false"[i]) == ToLowerAscii("false"[i])
    {
      assert i == 0 || i == 1 || i == 2 || i == 3 || i == 4;
    }
    assert EqualsIgnoreCase("false", "false");
  }
  lemma BooleanWordsFrom11(s: seq<byte>)
    requires Step(s, 11) == StepResult(Some(SyntaxToken(EndOfFile, None, 11, NoValue)), [], 11)
    ensures LexFrom(s, 11) == LexOutput([SyntaxToken(EndOfFile, None, 11, NoValue)], [])
  {
    LexFromUnfolds(s, 11);
  }
  lemma BooleanWordsFrom5(s: seq<byte>)
    requires Step(s, 5) == StepResult(Some(SyntaxToken(Boolean, Some("false"), 5, BoolValue(false))), [], 11)
    requires Step(s, 11) == StepResult(Some(SyntaxToken(EndOfFile, None, 11, NoValue)), [], 11)
    ensures LexFrom(s, 5) == LexOutput([SyntaxToken(Boolean, Some("false"), 5, BoolValue(false)), SyntaxToken(EndOfFile, None, 11, NoValue)], [])
  {
    BooleanWordsFrom11(s);
    LexFromUnfolds(s, 5);
    assert LexFrom(s, 5).tokens == [SyntaxToken(Boolean, Some("false"), 5, BoolValue(false))] + LexFrom(s, 11).tokens;
    assert LexFrom(s, 5).diagnostics == LexFrom(s, 11).diagnostics;
    assert [SyntaxToken(Boolean, Some("false"), 5, BoolValue(false))] + [SyntaxToken(EndOfFile, None, 11, NoValue)] == [SyntaxToken(Boolean, Some("false"), 5, BoolValue(false)), SyntaxToken(EndOfFile, None, 11, NoValue)];
  }
  lemma BooleanWordsFrom0(s: seq<byte>)
    requires Step(s, 0) == StepResult(Some(SyntaxToken(Boolean, Some("TRUE"), 0, BoolValue(true))), [], 5)
    requires Step(s, 5) == StepResult(Some(SyntaxToken(Boolean, Some("false"), 5, BoolValue(false))), [], 11)
    requires Step(s, 11) == StepResult(Some(SyntaxToken(EndOfFile, None, 11, NoValue)), [], 11)
    ensures LexFrom(s, 0) == LexOutput([SyntaxToken(Boolean, Some("TRUE"), 0, BoolValue(true)), SyntaxToken(Boolean, Some("false"), 5, BoolValue(false)), SyntaxToken(EndOfFile, None, 11, NoValue)], [])
  {
    BooleanWordsFrom5(s);
    LexFromUnfolds(s, 0);
    assert LexFrom(s, 0).tokens == [SyntaxToken(Boolean, Some("TRUE"), 0, BoolValue(true))] + LexFrom(s, 5).tokens;
    assert LexFrom(s, 0).diagnostics == LexFrom(s, 5).diagnostics;
    assert [SyntaxToken(Boolean, Some("TRUE"), 0, BoolValue(true))] + [SyntaxToken(Boolean, Some("false"), 5, BoolValue(false)), SyntaxToken(EndOfFile, None, 11, NoValue)] == [SyntaxToken(Boolean, Some("TRUE"), 0, BoolValue(true)), SyntaxToken(Boolean, Some("false"), 5, BoolValue(false)), SyntaxToken(EndOfFile, None, 11, NoValue)];
  }

  /** true and false in any case are Boolean tokens carrying their value; the delimiter after each is consumed. */
  lemma BooleanWords(s: seq<byte>)
    requires s == BooleanWordsInput
    ensures LexFrom(s, 0)
         == LexOutput([SyntaxToken(Boolean, Some("TRUE"), 0, BoolValue(true)),
                      SyntaxToken(Boolean, Some("false"), 5, BoolValue(false)),
                      SyntaxToken(EndOfFile, None, 11, NoValue)],
                      [])
  {
    BooleanWordsPass0(s);
    BooleanWordsPass1(s);
    BooleanWordsFrom0(s);
  }

  /** null, then a word that is no keyword. */
  const NullAndUnknownWordsInput: seq<byte> := [78, 117, 108, 108, 58, 110, 117, 108, 32]

  lemma NullAndUnknownWordsPass0(s: seq<byte>)
    requires s == NullAndUnknownWordsInput
    ensures Step(s, 0) == StepResult(Some(SyntaxToken(Null, Some("Null"), 0, NoValue)), [], 5)
  {
    assert s[0] == 78 && CharOf(s[0]) == 'N';
    assert s[0] == 78 && s[1] == 117 && s[2] == 108 && s[3] == 108 && s[4] == 58;
    forall k | 0 < k < 4 ensures !IsKeywordDelimiter(CharOf(s[k])) {
      assert k == 1 || k == 2 || k == 3;
    }
    assert s[0] == 78 && s[1] == 117 && s[2] == 108 && s[3] == 108;
    forall k | 0 <= k < 4 ensures Chars(s[0..4])[k] == "Null"[k] {
      assert k == 0 || k == 1 || k == 2 || k == 3;
    }
    assert Chars(s[0..4]) == "Null";
    KeywordEndsAt(s, 0, 4);
    assert ToLowerAscii("Null"[0]) != ToLowerAscii("true"[0]);
    forall i | 0 <= i < 4
      ensures ToLowerAscii("Null"[i]) == ToLowerAscii("null"[i])
    {
      assert i == 0 || i == 1 || i == 2 || i == 3;
    }
    assert EqualsIgnoreCase("Null", "null");
  }
  lemma NullAndUnknownWordsPass1(s: seq<byte>)
    requires s == NullAndUnknownWordsInput
    ensures Step(s, 5) == StepResult(Some(SyntaxToken(Unknown, Some("nul"), 5, NoValue)), [UnknownDiagnostic(5, "nul")], 9)
  {
    assert s[5] == 110 && CharOf(s[5]) == 'n';
    assert s[5] == 110 && s[6] == 117 && s[7] == 108 && s[8] == 32;
    forall k | 5 < k < 8 ensures !IsKeywordDelimiter(CharOf(s[k])) {
      assert k == 6 || k == 7;
    }
    assert s[5] == 110 && s[6] == 117 && s[7] == 108;
    forall k | 0 <= k < 3 ensures Chars(s[5..8])[k] == "nul"[k] {
      assert k == 0 || k == 1 || k == 2;
    }
    assert Chars(s[5..8]) == "nul";
    KeywordEndsAt(s, 5, 8);
  }
  lemma NullAndUnknownWordsFrom9(s: seq<byte>)
    requires Step(s, 9) == StepResult(Some(SyntaxToken(EndOfFile, None, 9, NoValue)), [], 9)
    ensures LexFrom(s, 9) == LexOutput([SyntaxToken(EndOfFile, None, 9, NoValue)], [])
  {
    LexFromUnfolds(s, 9);
  }
  lemma NullAndUnknownWordsFrom5(s: seq<byte>)
    requires Step(s, 5) == StepResult(Some(SyntaxToken(Unknown, Some("nul"), 5, NoValue)), [UnknownDiagnostic(5, "nul")], 9)
    requires Step(s, 9) == StepResult(Some(SyntaxToken(EndOfFile, None, 9, NoValue)), [], 9)
    ensures LexFrom(s, 5) == LexOutput([SyntaxToken(Unknown, Some("nul"), 5, NoValue), SyntaxToken(EndOfFile, None, 9, NoValue)], [UnknownDiagnostic(5, "nul")])
  {
    NullAndUnknownWordsFrom9(s);
    LexFromUnfolds(s, 5);
    assert LexFrom(s, 5).tokens == [SyntaxToken(Unknown, Some("nul"), 5, NoValue)] + LexFrom(s, 9).tokens;
    assert LexFrom(s, 5).diagnostics == [UnknownDiagnostic(5, "nul")] + LexFrom(s, 9).diagnostics;
    assert [SyntaxToken(Unknown, Some("nul"), 5, NoValue)] + [SyntaxToken(EndOfFile, None, 9, NoValue)] == [SyntaxToken(Unknown, Some("nul"), 5, NoValue), SyntaxToken(EndOfFile, None, 9, NoValue)];
  }
  lemma NullAndUnknownWordsFrom0(s: seq<byte>)
    requires Step(s, 0) == StepResult(Some(SyntaxToken(Null, Some("Null"), 0, NoValue)), [], 5)
    requires Step(s, 5) == StepResult(Some(SyntaxToken(Unknown, Some("nul"), 5, NoValue)), [UnknownDiagnostic(5, "nul")], 9)
    requires Step(s, 9) == StepResult(Some(SyntaxToken(EndOfFile, None, 9, NoValue)), [], 9)
    ensures LexFrom(s, 0) == LexOutput([SyntaxToken(Null, Some("Null"), 0, NoValue), SyntaxToken(Unknown, Some("nul"), 5, NoValue), SyntaxToken(EndOfFile, None, 9, NoValue)], [UnknownDiagnostic(5, "nul")])
  {
    NullAndUnknownWordsFrom5(s);
    LexFromUnfolds(s, 0);
    assert LexFrom(s, 0).tokens == [SyntaxToken(Null, Some("Null"), 0, NoValue)] + LexFrom(s, 5).tokens;
    assert LexFrom(s, 0).diagnostics == LexFrom(s, 5).diagnostics;
    assert [SyntaxToken(Null, Some("Null"), 0, NoValue)] + [SyntaxToken(Unknown, Some("nul"), 5, NoValue), SyntaxToken(EndOfFile, None, 9, NoValue)] == [SyntaxToken(Null, Some("Null"), 0, NoValue), SyntaxToken(Unknown, Some("nul"), 5, NoValue), SyntaxToken(EndOfFile, None, 9, NoValue)];
  }

  /** null in any case is a Null token; any other word is an Unknown token with a diagnostic. */
  lemma NullAndUnknownWords(s: seq<byte>)
    requires s == NullAndUnknownWordsInput
    ensures LexFrom(s, 0)
         == LexOutput([SyntaxToken(Null, Some("Null"), 0, NoValue),
                      SyntaxToken(Unknown, Some("nul"), 5, NoValue),
                      SyntaxToken(EndOfFile, None, 9, NoValue)],
                      [UnknownDiagnostic(5, "nul")])
  {
    NullAndUnknownWordsPass0(s);
    NullAndUnknownWordsPass1(s);
    NullAndUnknownWordsFrom0(s);
  }

  /** A number followed by a comma. */
  const DigitRunInput: seq<byte> := [49, 50, 51, 44]

  lemma DigitRunPass0(s: seq<byte>)
    requires s == DigitRunInput
    ensures Step(s, 0) == StepResult(Some(SyntaxToken(Digit, Some("123"), 0, IntValue(123))), [], 4)
  {
    assert s[0] == 49 && CharOf(s[0]) == '1';
    assert s[0] == 49 && s[1] == 50 && s[2] == 51 && s[3] == 44;
    assert DigitRunEnd(s, 3) == 3;
    assert DigitRunEnd(s, 2) == 3;
    assert DigitRunEnd(s, 1) == 3;
    assert s[0] == 49 && s[1] == 50 && s[2] == 51;
    forall k | 0 <= k < 3 ensures Chars(s[0..3])[k] == "123"[k] {
      assert k == 0 || k == 1 || k == 2;
    }
    assert Chars(s[0..3]) == "123";
    assert "123"[..2] == "12";
    assert "12"[..1] == "1";
    assert "1"[..0] == "";
  }
  lemma DigitRunFrom4(s: seq<byte>)
    requires Step(s, 4) == StepResult(Some(SyntaxToken(EndOfFile, None, 4, NoValue)), [], 4)
    ensures LexFrom(s, 4) == LexOutput([SyntaxToken(EndOfFile, None, 4, NoValue)], [])
  {
    LexFromUnfolds(s, 4);
  }
  lemma DigitRunFrom0(s: seq<byte>)
    requires Step(s, 0) == StepResult(Some(SyntaxToken(Digit, Some("123"), 0, IntValue(123))), [], 4)
    requires Step(s, 4) == StepResult(Some(SyntaxToken(EndOfFile, None, 4, NoValue)), [], 4)
    ensures LexFrom(s, 0) == LexOutput([SyntaxToken(Digit, Some("123"), 0, IntValue(123)), SyntaxToken(EndOfFile, None, 4, NoValue)], [])
  {
    DigitRunFrom4(s);
    LexFromUnfolds(s, 0);
    assert LexFrom(s, 0).tokens == [SyntaxToken(Digit, Some("123"), 0, IntValue(123))] + LexFrom(s, 4).tokens;
    assert LexFrom(s, 0).diagnostics == LexFrom(s, 4).diagnostics;
    assert [SyntaxToken(Digit, Some("123"), 0, IntValue(123))] + [SyntaxToken(EndOfFile, None, 4, NoValue)] == [SyntaxToken(Digit, Some("123"), 0, IntValue(123)), SyntaxToken(EndOfFile, None, 4, NoValue)];
  }

  /** A digit run has the value of its digits, and the comma after it is consumed with it. */
  lemma DigitRun(s: seq<byte>)
    requires s == DigitRunInput
    ensures LexFrom(s, 0)
         == LexOutput([SyntaxToken(Digit, Some("123"), 0, IntValue(123)),
                      SyntaxToken(EndOfFile, None, 4, NoValue)],
                      [])
  {
    DigitRunPass0(s);
    DigitRunFrom0(s);
  }

  /** A NUL byte before more input. */
  const NulStopsInput: seq<byte> := [123, 0, 125]

  lemma NulStopsPass0(s: seq<byte>)
    requires s == NulStopsInput
    ensures Step(s, 0) == StepResult(Some(SyntaxToken(OpenObjectCurlyBracket, Some("{"), 0, NoValue)), [], 1)
  {
    assert s[0] == 123 && CharOf(s[0]) == '{';
  }
  lemma NulStopsPass1(s: seq<byte>)
    requires s == NulStopsInput
    ensures Step(s, 1) == StepResult(Some(SyntaxToken(EndOfFile, Some("\0"), 1, NoValue)), [], 2)
  {
    assert s[1] == 0 && CharOf(s[1]) == '\0';
  }
  lemma NulStopsFrom1(s: seq<byte>)
    requires Step(s, 1) == StepResult(Some(SyntaxToken(EndOfFile, Some("\0"), 1, NoValue)), [], 2)
    ensures LexFrom(s, 1) == LexOutput([SyntaxToken(EndOfFile, Some("\0"), 1, NoValue)], [])
  {
    LexFromUnfolds(s, 1);
  }
  lemma NulStopsFrom0(s: seq<byte>)
    requires Step(s, 0) == StepResult(Some(SyntaxToken(OpenObjectCurlyBracket, Some("{"), 0, NoValue)), [], 1)
    requires Step(s, 1) == StepResult(Some(SyntaxToken(EndOfFile, Some("\0"), 1, NoValue)), [], 2)
    ensures LexFrom(s, 0) == LexOutput([SyntaxToken(OpenObjectCurlyBracket, Some("{"), 0, NoValue), SyntaxToken(EndOfFile, Some("\0"), 1, NoValue)], [])
  {
    NulStopsFrom1(s);
    LexFromUnfolds(s, 0);
    assert LexFrom(s, 0).tokens == [SyntaxToken(OpenObjectCurlyBracket, Some("{"), 0, NoValue)] + LexFrom(s, 1).tokens;
    assert LexFrom(s, 0).diagnostics == LexFrom(s, 1).diagnostics;
    assert [SyntaxToken(OpenObjectCurlyBracket, Some("{"), 0, NoValue)] + [SyntaxToken(EndOfFile, Some("\0"), 1, NoValue)] == [SyntaxToken(OpenObjectCurlyBracket, Some("{"), 0, NoValue), SyntaxToken(EndOfFile, Some("\0"), 1, NoValue)];
  }

  /** A NUL byte is an end-of-file token with the text "\0"; what follows it is never read. */
  lemma NulStops(s: seq<byte>)
    requires s == NulStopsInput
    ensures LexFrom(s, 0)
         == LexOutput([SyntaxToken(OpenObjectCurlyBracket, Some("{"), 0, NoValue),
                      SyntaxToken(EndOfFile, Some("\0"), 1, NoValue)],
                      [])
  {
    NulStopsPass0(s);
    NulStopsPass1(s);
    NulStopsFrom0(s);
  }
}
