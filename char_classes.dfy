/** The .NET character predicates the lexer relies on, on the only
    characters it ever sees: a byte value U+0000..U+00FF cast to char, or the
    end-of-input sentinel U+FFFF that a cast of ReadByte's -1 produces. */
module CharClasses {

  newtype byte = x: int | 0 <= x < 256

  /** The character the code obtains by casting a byte to char. */
  function CharOf(b: byte): (c: char)
    ensures c as int == b as int
  {
    b as int as char
  }

  /** The text of a run of bytes, one character per byte, never decoded. */
  function Chars(bs: seq<byte>): (s: string)
    ensures |s| == |bs|
    ensures forall i :: 0 <= i < |bs| ==> s[i] == CharOf(bs[i])
  {
    seq(|bs|, i requires 0 <= i < |bs| => CharOf(bs[i]))
  }

  /** (char)(-1), what the code reads once the stream is exhausted. */
  const EndSentinel: char := 0xFFFF as char

  /** The (char) cast of what ReadByte returns: the byte's character, or
      the sentinel for -1. */
  function ReadChar(b: int): (c: char)
    requires -1 <= b < 256
    ensures b == -1 <==> c == EndSentinel
    ensures b != -1 ==> c == CharOf(b as byte)
  {
    if b == -1 then EndSentinel else CharOf(b as byte)
  }

  /** Growing a run by one byte appends that byte's character to its text. */
  lemma CharsExtend(bs: seq<byte>, i: nat, j: nat)
    requires i <= j < |bs|
    ensures Chars(bs[i..j + 1]) == Chars(bs[i..j]) + [CharOf(bs[j])]
  {
    assert bs[i..j + 1] == bs[i..j] + [bs[j]];
  }

  /** The text of a one-byte run is that byte's character. */
  lemma CharsOfOne(bs: seq<byte>, k: nat)
    requires k < |bs|
    ensures Chars(bs[k..k + 1]) == [CharOf(bs[k])]
  {
  }

  /** The text of two adjacent runs is the text of the first followed by
      the text of the second. */
  lemma CharsSplit(bs: seq<byte>, i: nat, j: nat, k: nat)
    requires i <= j <= k <= |bs|
    ensures Chars(bs[i..k]) == Chars(bs[i..j]) + Chars(bs[j..k])
  {
    assert bs[i..k] == bs[i..j] + bs[j..k];
  }

  /** char.IsWhiteSpace on U+0000..U+00FF and U+FFFF. */
  predicate IsWhiteSpace(c: char) {
    var x := c as int;
    x == 0x20 || (0x09 <= x <= 0x0D) || x == 0x85 || x == 0xA0
  }

  /** char.IsLetter on U+0000..U+00FF and U+FFFF. */
  predicate IsLetter(c: char) {
    var x := c as int;
    ('A' as int <= x <= 'Z' as int) || ('a' as int <= x <= 'z' as int)
    || x == 0xAA || x == 0xB5 || x == 0xBA
    || (0xC0 <= x <= 0xD6) || (0xD8 <= x <= 0xF6) || (0xF8 <= x <= 0xFF)
  }

  /** char.IsDigit on U+0000..U+00FF and U+FFFF: only the ASCII digits. */
  predicate IsDigit(c: char) {
    '0' as int <= c as int <= '9' as int
  }

  /** The end sentinel belongs to none of the three classes, so no scan
      ever adds it to the text it accumulates. */
  lemma SentinelIsNoClassMember()
    ensures !IsWhiteSpace(EndSentinel) && !IsLetter(EndSentinel) && !IsDigit(EndSentinel)
  {
  }

  function ToLowerAscii(c: char): (r: char)
    ensures 'A' <= c <= 'Z' ==> 'a' <= r <= 'z' && r as int - c as int == 32
    ensures !('A' <= c <= 'Z') ==> r == c
  {
    if 'A' <= c <= 'Z' then (c as int + 32) as char else c
  }

  /** Case-insensitive string equality, folding ASCII letters only. */
  predicate EqualsIgnoreCase(a: string, b: string) {
    |a| == |b| && forall i :: 0 <= i < |a| ==> ToLowerAscii(a[i]) == ToLowerAscii(b[i])
  }

  /** The numeric value of a run of ASCII digits (what BigInteger.Parse
      returns for it). */
  function DecimalValue(text: string): nat
    requires forall i :: 0 <= i < |text| ==> IsDigit(text[i])
    decreases |text|
  {
    if text == [] then 0
    else
      var last := text[|text| - 1];
      assert IsDigit(last);
      10 * DecimalValue(text[..|text| - 1]) + (last as int - '0' as int)
  }
}
