/** The lexer: a byte stream, a bag that accumulates the characters of the
    token being read and a bag of diagnostics. Each method is proved to do
    what the functions of LexerSpec say. */
module JsonLexers {

  import opened Wrappers
  import opened Exceptions
  import opened CharClasses
  import opened TextSpans
  import opened Diagnostics
  import opened Syntax
  import opened Streams
  import opened CharBags
  import opened Histories
  import opened Encodings
  import opened LexerSpec

  /** What the lexer needs of a FileInfo: its name, whether it exists (present) and
      the bytes a FileStream on it reads. */
  datatype FileEntry = FileEntry(fullName: string, present: bool, contents: seq<byte>)

  /** The literal scan's terminator test, asked of a three-slot history of
      the literal's text, is QuoteCloses. */
  lemma HistoryDecidesQuote(text: string)
    ensures QuoteCloses(text)
        <==> (CurrentOf(text, '\0') != '\\' || PrecedingOf(text, 3, 1, '\0') == Success('\\'))
  {
  }

  class JsonLexer {
    const sourceStream: ByteStream
    const readCharBag: ReadCharBag
    const diagnostics: DiagnosticBag
    var currentChar: char
    /** The byte order mark found by the stream and file constructors; the
        content constructor leaves it unset. */
    const encodingInfos: Option<EncodingInfos>

    /** Between two passes of Lex the character bag is empty. */
    ghost predicate Valid()
      reads this, readCharBag, readCharBag.readChars
    {
      readCharBag.Contents() == []
    }

    /** The private constructor, completed with the stream and the encoding
        information the public constructors compute. */
    constructor Init(stream: ByteStream, info: Option<EncodingInfos>)
      ensures Valid() && sourceStream == stream && encodingInfos == info
      ensures fresh(readCharBag) && fresh(readCharBag.readChars) && fresh(diagnostics)
      ensures diagnostics.items == []
    {
      sourceStream := stream;
      encodingInfos := info;
      readCharBag := new ReadCharBag();
      diagnostics := new DiagnosticBag();
    }

    /** JsonLexer(Stream): a null stream or Stream.Null throws
        ArgumentNullException; otherwise the byte order mark is sniffed and
        lexing starts after it. */
    static method FromStream(stream: ByteStream?) returns (r: Result<JsonLexer, Error>)
      modifies stream
      ensures stream == null || stream.isNullStream <==> r.Failure?
      ensures r.Failure? ==> r.error == ArgumentNull
      ensures r.Failure? && stream != null ==> stream.position == old(stream.position)
      ensures r.Success? ==> fresh(r.value) && r.value.Valid() && r.value.sourceStream == stream
      ensures r.Success? ==> r.value.diagnostics.items == []
      ensures r.Success? ==> var sniffed := Sniff(stream.data, old(stream.position));
                             r.value.encodingInfos == Some(sniffed.info) && stream.position == sniffed.position
    {
      if stream == null || stream.isNullStream {
        return Failure(ArgumentNull);
      }
      var info := GetEncoding(stream);
      var lexer := new JsonLexer.Init(stream, Some(info.value));
      r := Success(lexer);
    }

    /** JsonLexer(string): a null content throws ArgumentException; an empty
        one is accepted. The content is written to a memory stream, which is
        rewound; no byte order mark is looked for. */
    static method FromContent(content: Option<seq<byte>>) returns (r: Result<JsonLexer, Error>)
      ensures content.None? <==> r.Failure?
      ensures r.Failure? ==> r.error == Argument
      ensures r.Success? ==> fresh(r.value) && fresh(r.value.sourceStream) && r.value.Valid()
      ensures r.Success? ==> r.value.sourceStream.data == content.value && r.value.sourceStream.position == 0
      ensures r.Success? ==> r.value.encodingInfos.None? && r.value.diagnostics.items == []
    {
      if content.None? {
        return Failure(Argument);
      }
      var stream := new ByteStream(content.value);
      stream.SetPosition(0);
      var lexer := new JsonLexer.Init(stream, None);
      r := Success(lexer);
    }

    /** JsonLexer(FileInfo): a null file throws ArgumentNullException, a
        missing one FileNotFoundException; otherwise the file is opened and
        its byte order mark sniffed. */
    static method FromFile(file: Option<FileEntry>) returns (r: Result<JsonLexer, Error>)
      ensures file.None? ==> r == Failure(ArgumentNull)
      ensures file.Some? && !file.value.present ==> r == Failure(FileNotFound)
      ensures file.Some? && file.value.present ==> r.Success?
      ensures r.Success? ==> fresh(r.value) && fresh(r.value.sourceStream) && r.value.Valid()
      ensures r.Success? ==> var sniffed := Sniff(file.value.contents, 0);
                             r.value.sourceStream.data == file.value.contents
                             && r.value.sourceStream.position == sniffed.position
                             && r.value.encodingInfos == Some(sniffed.info)
                             && r.value.diagnostics.items == []
    {
      if file.None? {
        return Failure(ArgumentNull);
      }
      if !file.value.present {
        return Failure(FileNotFound);
      }
      var stream := new ByteStream(file.value.contents);
      var info := GetEncoding(stream);
      var lexer := new JsonLexer.Init(stream, Some(info.value));
      r := Success(lexer);
    }

    /** One pass of the loop in Lex: the token it yields, if any, the
        diagnostics it adds and where it leaves the cursor are those of
        Step. */
    method NextStep() returns (token: Option<SyntaxToken>)
      requires Valid()
      modifies this, sourceStream, readCharBag, diagnostics
      ensures Valid()
      ensures var r := Step(sourceStream.data, old(sourceStream.position));
              token == r.token && sourceStream.position == r.next
              && diagnostics.items == old(diagnostics.items) + Present(r.diagnostics)
    {
      ghost var s := sourceStream.data;
      var startPosition := sourceStream.position;
      var readByte := sourceStream.ReadByte();
      if readByte == -1 {
        readCharBag.Dispose();
        return Some(SyntaxToken(EndOfFile, None, startPosition, NoValue));
      }
      currentChar := ReadChar(readByte);
      readCharBag.Add(currentChar);
      var kind, value, completed := Scan(startPosition);
      if !completed {
        readCharBag.Dispose();
        return None;
      }
      var text := readCharBag.ToString();
      assert text == readCharBag.Contents();
      if kind == Unknown || kind == Count {
        diagnostics.AddDiagnostic(Some(UnknownDiagnostic(startPosition, text)));
      }
      readCharBag.Dispose();
      token := Some(SyntaxToken(kind, Some(text), startPosition, value));
    }

    /** The switch on the first character of a pass. When the pass runs to
        its end (completed), the kind and value found, the text gathered in
        the bag and the cursor give Step through Emit; when a scan reaches
        the end of the input first, its diagnostic has been added. */
    method Scan(startPosition: nat) returns (kind: SyntaxKind, value: TokenValue, completed: bool)
      requires startPosition < |sourceStream.data| && sourceStream.position == startPosition + 1
      requires currentChar == CharOf(sourceStream.data[startPosition])
      requires readCharBag.Contents() == [currentChar]
      modifies this, sourceStream, readCharBag, diagnostics
      ensures var r := Step(sourceStream.data, startPosition);
              completed <==> r.token.Some?
      ensures completed ==> diagnostics.items == old(diagnostics.items)
                            && Step(sourceStream.data, startPosition)
                               == Emit(kind, readCharBag.Contents(), startPosition, value, sourceStream.position)
      ensures !completed ==> var r := Step(sourceStream.data, startPosition);
                             sourceStream.position == r.next
                             && diagnostics.items == old(diagnostics.items) + Present(r.diagnostics)
    {
      ghost var s := sourceStream.data;
      value := NoValue;
      completed := true;
      assert readCharBag.Contents() == Chars(s[startPosition..startPosition + 1]);
      match currentChar {
        case '\0' =>
          kind := EndOfFile;
        case '{' =>
          kind := OpenObjectCurlyBracket;
        case '}' =>
          kind := CloseObjectCurlyBracket;
        case '[' =>
          kind := OpenArrayBracket;
        case ']' =>
          kind := CloseArrayBracket;
        case '\'' | '"' =>
          completed := ScanLiteral(startPosition);
          kind := Literal;
        case '-' =>
          kind := Minus;
        case ',' =>
          kind := Coma;
        case '/' =>
          kind := Slash;
        case '\\' =>
          kind := BackSlash;
        case ':' =>
          kind := Colon;
        case ' ' | '\t' | '\n' | '\r' =>
          ExtractWhitespace();
          CharsSplit(s, startPosition, startPosition + 1, sourceStream.position);
          kind := Whitespace;
        case _ =>
          if IsLetter(currentChar) {
            kind, value, completed := ScanKeyword(startPosition);
          } else if IsDigit(currentChar) {
            ExtractDigit();
            CharsSplit(s, startPosition, startPosition + 1, DigitRunEnd(s, startPosition + 1));
            var digits := readCharBag.ToString();
            assert digits == readCharBag.Contents();
            value := IntValue(DecimalValue(digits));
            kind := Digit;
          } else {
            kind := Unknown;
          }
      }
    }

    /** The literal branch: the bag is emptied so the opening quote is not
        part of the text; a literal the input ends inside adds the
        never-closed diagnostic. */
    method ScanLiteral(startPosition: nat) returns (completed: bool)
      requires startPosition < |sourceStream.data| && sourceStream.position == startPosition + 1
      requires IsQuote(CharOf(sourceStream.data[startPosition]))
      modifies this, sourceStream, readCharBag, diagnostics
      ensures var r := LiteralStep(sourceStream.data, startPosition);
              (completed <==> r.token.Some?)
              && (completed ==> diagnostics.items == old(diagnostics.items)
                                && r == Emit(Literal, readCharBag.Contents(), startPosition, NoValue, sourceStream.position))
              && (!completed ==> sourceStream.position == r.next
                                 && diagnostics.items == old(diagnostics.items) + Present(r.diagnostics))
    {
      readCharBag.EmptyBag();
      completed := ExtractLiteral();
      if !completed {
        var text := readCharBag.ToString();
        assert text == readCharBag.Contents();
        diagnostics.AddDiagnostic(Some(Diagnostic(TextSpan(startPosition, |text|), LiteralMessage + text, Some(EndOfFileExtractLiteral))));
      }
    }

    /** The letter branch: a run the input ends inside adds the keyword
        diagnostic; otherwise its text is compared, ignoring case, with
        true, false and null. */
    method ScanKeyword(startPosition: nat) returns (kind: SyntaxKind, value: TokenValue, completed: bool)
      requires startPosition < |sourceStream.data| && sourceStream.position == startPosition + 1
      requires IsLetter(CharOf(sourceStream.data[startPosition]))
      requires readCharBag.Contents() == Chars(sourceStream.data[startPosition..startPosition + 1])
      modifies this, sourceStream, readCharBag, diagnostics
      ensures var r := KeywordStep(sourceStream.data, startPosition);
              (completed <==> r.token.Some?)
              && (completed ==> diagnostics.items == old(diagnostics.items)
                                && r == Emit(kind, readCharBag.Contents(), startPosition, value, sourceStream.position))
              && (!completed ==> sourceStream.position == r.next
                                 && diagnostics.items == old(diagnostics.items) + Present(r.diagnostics))
    {
      ghost var s := sourceStream.data;
      kind := Unknown;
      value := NoValue;
      completed := ExtractKeyword();
      CharsSplit(s, startPosition, startPosition + 1, KeywordRunEnd(s, startPosition + 1));
      var text := readCharBag.ToString();
      assert text == readCharBag.Contents();
      if !completed {
        diagnostics.AddDiagnostic(Some(Diagnostic(TextSpan(startPosition, |text|), KeywordMessage, Some(EndOfFileExtractLiteral))));
        return;
      }
      if EqualsIgnoreCase(text, "true") || EqualsIgnoreCase(text, "false") {
        value := BoolValue(EqualsIgnoreCase(text, "true"));
        kind := Boolean;
      } else if EqualsIgnoreCase(text, "null") {
        kind := Null;
      }
    }

    /** Consumes the rest of a whitespace run; the byte that ends it is put
        back unless the input is exhausted. */
    method ExtractWhitespace()
      requires sourceStream.position <= |sourceStream.data|
      modifies this, sourceStream, readCharBag
      ensures sourceStream.position == WhitespaceRunEnd(sourceStream.data, old(sourceStream.position))
      ensures readCharBag.Contents()
           == old(readCharBag.Contents()) + Chars(sourceStream.data[old(sourceStream.position)..sourceStream.position])
    {
      ghost var s := sourceStream.data;
      ghost var p0 := sourceStream.position;
      ghost var bag0 := readCharBag.Contents();
      while true
        invariant p0 <= sourceStream.position <= |s|
        invariant WhitespaceRunEnd(s, sourceStream.position) == WhitespaceRunEnd(s, p0)
        invariant readCharBag.Contents() == bag0 + Chars(s[p0..sourceStream.position])
        decreases |s| - sourceStream.position
      {
        var readByte := sourceStream.ReadByte();
        currentChar := ReadChar(readByte);
        if !IsWhiteSpace(currentChar) {
          if currentChar != EndSentinel {
            sourceStream.SetPosition(sourceStream.position - 1);
          }
          break;
        }
        CharsExtend(s, p0, sourceStream.position - 1);
        readCharBag.Add(currentChar);
      }
    }

    /** Whether a quote read inside a literal closes it: unless the last
        character read was a backslash that is not itself preceded by one. */
    static method QuoteClosesLiteral(previousChars: History<char>) returns (closes: bool)
      requires previousChars.Valid() && previousChars.ring.Capacity() == 3 && previousChars.ring.Default == '\0'
      ensures closes == QuoteCloses(previousChars.Added)
    {
      HistoryDecidesQuote(previousChars.Added);
      var current := previousChars.Current();
      if current == '\\' {
        var preceding := previousChars.Preceding(1);
        closes := preceding == Success('\\');
      } else {
        closes := true;
      }
    }

    /** Consumes a literal up to its closing quote, which is dropped; false
        when the input ends first, where the code throws
        EndOfFileExtractLiteralException. */
    method ExtractLiteral() returns (closed: bool)
      requires sourceStream.position <= |sourceStream.data|
      requires readCharBag.Contents() == []
      modifies this, sourceStream, readCharBag
      ensures var e := LiteralRunEnd(sourceStream.data, old(sourceStream.position), old(sourceStream.position));
              (closed <==> e < |sourceStream.data|)
              && sourceStream.position == (if closed then e + 1 else e)
              && readCharBag.Contents() == Chars(sourceStream.data[old(sourceStream.position)..e])
    {
      ghost var s := sourceStream.data;
      ghost var p0 := sourceStream.position;
      var previousChars := new History<char>(3, '\0');
      while true
        invariant p0 <= sourceStream.position <= |s|
        invariant LiteralRunEnd(s, p0, sourceStream.position) == LiteralRunEnd(s, p0, p0)
        invariant readCharBag.Contents() == Chars(s[p0..sourceStream.position])
        invariant fresh(previousChars) && fresh(previousChars.ring) && fresh(previousChars.ring.items)
        invariant previousChars.Valid() && previousChars.ring.Capacity() == 3 && previousChars.ring.Default == '\0'
        invariant previousChars.Added == readCharBag.Contents()
        invariant previousChars.ring.items != readCharBag.readChars
        decreases |s| - sourceStream.position
      {
        var stop := ReadLiteralChar(p0, previousChars);
        if stop {
          return currentChar == '"';
        }
      }
    }

    /** One turn of the loop in ExtractLiteral: reads a character and either
        stops there (a closing quote, or the end of the input) or appends it
        to the text and to the history of the last three characters. */
    method ReadLiteralChar(ghost p0: nat, previousChars: History<char>) returns (stop: bool)
      requires p0 <= sourceStream.position <= |sourceStream.data|
      requires readCharBag.Contents() == Chars(sourceStream.data[p0..sourceStream.position])
      requires previousChars.Valid() && previousChars.ring.Capacity() == 3 && previousChars.ring.Default == '\0'
      requires previousChars.Added == readCharBag.Contents()
      requires previousChars.ring.items != readCharBag.readChars
      modifies this, sourceStream, readCharBag, previousChars, previousChars.ring.items
      ensures var q := old(sourceStream.position);
              stop <==> q == |sourceStream.data| || LiteralStopsAt(sourceStream.data, p0, q)
      ensures var q := old(sourceStream.position);
              stop ==> (currentChar == '"' <==> q < |sourceStream.data|)
                       && sourceStream.position == (if q < |sourceStream.data| then q + 1 else q)
                       && readCharBag.Contents() == old(readCharBag.Contents())
      ensures !stop ==> sourceStream.position == old(sourceStream.position) + 1
                        && readCharBag.Contents() == Chars(sourceStream.data[p0..sourceStream.position])
                        && previousChars.Valid() && previousChars.Added == readCharBag.Contents()
      ensures previousChars.ring.items == old(previousChars.ring.items)
      ensures previousChars.ring.items != readCharBag.readChars
    {
      ghost var s := sourceStream.data;
      var readByte := sourceStream.ReadByte();
      currentChar := ReadChar(readByte);
      if currentChar == '"' {
        stop := QuoteClosesLiteral(previousChars);
        if stop {
          return;
        }
      } else if currentChar == EndSentinel {
        return true;
      }
      stop := false;
      CharsExtend(s, p0, sourceStream.position - 1);
      readCharBag.Add(currentChar);
      previousChars.Add(currentChar);
    }

    /** Consumes the rest of a letter run up to a colon, a comma or
        whitespace, which is dropped; false when the input ends first, where
        the code throws EndOfFileExtractLiteralException. */
    method ExtractKeyword() returns (closed: bool)
      requires sourceStream.position <= |sourceStream.data|
      modifies this, sourceStream, readCharBag
      ensures var e := KeywordRunEnd(sourceStream.data, old(sourceStream.position));
              (closed <==> e < |sourceStream.data|)
              && sourceStream.position == (if closed then e + 1 else e)
              && readCharBag.Contents()
                 == old(readCharBag.Contents()) + Chars(sourceStream.data[old(sourceStream.position)..e])
    {
      ghost var s := sourceStream.data;
      ghost var p0 := sourceStream.position;
      ghost var bag0 := readCharBag.Contents();
      while true
        invariant p0 <= sourceStream.position <= |s|
        invariant KeywordRunEnd(s, sourceStream.position) == KeywordRunEnd(s, p0)
        invariant readCharBag.Contents() == bag0 + Chars(s[p0..sourceStream.position])
        decreases |s| - sourceStream.position
      {
        var readByte := sourceStream.ReadByte();
        currentChar := ReadChar(readByte);
        if currentChar == ':' || currentChar == ',' || IsWhiteSpace(currentChar) {
          return true;
        }
        if currentChar == EndSentinel {
          return false;
        }
        CharsExtend(s, p0, sourceStream.position - 1);
        readCharBag.Add(currentChar);
      }
    }

    /** Consumes the rest of a digit run; the byte that ends it is consumed
        and dropped. */
    method ExtractDigit()
      requires sourceStream.position <= |sourceStream.data|
      modifies this, sourceStream, readCharBag
      ensures var e := DigitRunEnd(sourceStream.data, old(sourceStream.position));
              sourceStream.position == (if e < |sourceStream.data| then e + 1 else e)
              && readCharBag.Contents()
                 == old(readCharBag.Contents()) + Chars(sourceStream.data[old(sourceStream.position)..e])
    {
      ghost var s := sourceStream.data;
      ghost var p0 := sourceStream.position;
      ghost var bag0 := readCharBag.Contents();
      while true
        invariant p0 <= sourceStream.position <= |s|
        invariant DigitRunEnd(s, sourceStream.position) == DigitRunEnd(s, p0)
        invariant readCharBag.Contents() == bag0 + Chars(s[p0..sourceStream.position])
        decreases |s| - sourceStream.position
      {
        var readByte := sourceStream.ReadByte();
        currentChar := ReadChar(readByte);
        if !IsDigit(currentChar) {
          break;
        }
        CharsExtend(s, p0, sourceStream.position - 1);
        readCharBag.Add(currentChar);
      }
    }

    /** One pass of Lex with its bookkeeping: the token, if any, is
        appended to those yielded so far, and what has been yielded and
        added, followed by what remains to be lexed, is still the whole
        output. */
    method Pass(ghost total: LexOutput, ghost d0: seq<Option<Diagnostic>>, ghost emitted: seq<Diagnostic>, tokens: seq<SyntaxToken>)
      returns (tokens': seq<SyntaxToken>, ghost emitted': seq<Diagnostic>, done: bool)
      requires Valid() && diagnostics.items == d0 + Present(emitted)
      requires total.tokens == tokens + LexFrom(sourceStream.data, sourceStream.position).tokens
      requires total.diagnostics == emitted + LexFrom(sourceStream.data, sourceStream.position).diagnostics
      modifies this, sourceStream, readCharBag, diagnostics
      ensures Valid() && diagnostics.items == d0 + Present(emitted')
      ensures done ==> total == LexOutput(tokens', emitted')
      ensures !done ==> old(sourceStream.position) < sourceStream.position <= |sourceStream.data|
      ensures !done ==> total.tokens == tokens' + LexFrom(sourceStream.data, sourceStream.position).tokens
                        && total.diagnostics == emitted' + LexFrom(sourceStream.data, sourceStream.position).diagnostics
    {
      ghost var s := sourceStream.data;
      ghost var position := sourceStream.position;
      LexFromAdvances(s, position, tokens, emitted, total);
      var token := NextStep();
      ghost var r := Step(s, position);
      PresentAppend(emitted, r.diagnostics);
      emitted' := emitted + r.diagnostics;
      if token.Some? {
        tokens' := tokens + [token.value];
        done := token.value.kind == EndOfFile;
      } else {
        tokens' := tokens;
        done := false;
      }
    }

    /** Lex: every token up to and including the first end-of-file token,
        and every diagnostic added on the way, are those of LexFrom. */
    method Lex() returns (tokens: seq<SyntaxToken>)
      requires Valid()
      modifies this, sourceStream, readCharBag, diagnostics
      ensures Valid()
      ensures var out := LexFrom(sourceStream.data, old(sourceStream.position));
              tokens == out.tokens && diagnostics.items == old(diagnostics.items) + Present(out.diagnostics)
    {
      ghost var s := sourceStream.data;
      ghost var total := LexFrom(s, sourceStream.position);
      ghost var d0 := diagnostics.items;
      ghost var emitted: seq<Diagnostic> := [];
      tokens := [];
      var done := false;
      while !done
        invariant Valid() && sourceStream.data == s
        invariant diagnostics.items == d0 + Present(emitted)
        invariant done ==> total == LexOutput(tokens, emitted)
        invariant !done ==> total.tokens == tokens + LexFrom(s, sourceStream.position).tokens
                            && total.diagnostics == emitted + LexFrom(s, sourceStream.position).diagnostics
        decreases !done, |s| - sourceStream.position
      {
        tokens, emitted, done := Pass(total, d0, emitted, tokens);
      }
    }
  }
}
