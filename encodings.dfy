/** Byte-order-mark detection: which encoding a stream declares in its
    first bytes (the U+FEFF signatures of section 23.8 of the Unicode
    Standard). */
module Encodings {

  import opened Wrappers
  import opened Exceptions
  import opened CharClasses
  import opened Streams

  /** The System.Text.Encoding instances the code names. Encoding.Default
      is platform dependent and stays an opaque tag. */
  datatype Encoding = UTF7 | UTF8 | Unicode | BigEndianUnicode | UTF32 | Default

  datatype EncodingInfos = EncodingInfos(encoding: Encoding, withBom: bool)

  /** EncodingInfos.CreateNew and the constructor: a null encoding throws
      ArgumentNullException. */
  function CreateNew(encoding: Option<Encoding>, withBom: bool): (r: Result<EncodingInfos, Error>)
    ensures encoding.None? <==> r.Failure?
    ensures r.Failure? ==> r.error == ArgumentNull
    ensures r.Success? ==> r.value.encoding == encoding.value && r.value.withBom == withBom
  {
    match encoding
    case None => Failure(ArgumentNull)
    case Some(e) => Success(EncodingInfos(e, withBom))
  }

  /** The switch over the three-byte buffer, in the order of its cases. */
  function ClassifyBom(b0: byte, b1: byte, b2: byte): Option<Encoding> {
    if b0 == 0x2B && b1 == 0x2F && b2 == 0x76 then Some(UTF7)
    else if b0 == 0xEF && b1 == 0xBB && b2 == 0xBF then Some(UTF8)
    else if b0 == 0xFF && b1 == 0xFE then Some(Unicode)
    else if b0 == 0xFE && b1 == 0xFF then Some(BigEndianUnicode)
    else if b0 == 0x00 && b1 == 0x00 && b2 == 0xFE then Some(UTF32)
    else None
  }

  /** The three-byte buffer after reading up to three bytes into it: the
      bytes that were not read stay zero. */
  function BomBuffer(read: seq<byte>): (buffer: seq<byte>)
    requires |read| <= 3
    ensures |buffer| == 3
    ensures forall i :: 0 <= i < |read| ==> buffer[i] == read[i]
    ensures forall i :: |read| <= i < 3 ==> buffer[i] == 0
  {
    read + seq(3 - |read|, _ => 0 as byte)
  }

  /** The bytes GetEncoding reads from a cursor position. */
  function BomBytes(data: seq<byte>, position: nat): (read: seq<byte>)
    ensures |read| <= 3
  {
    if position >= |data| then []
    else data[position..if position + 3 <= |data| then position + 3 else |data|]
  }

  /** The result of GetEncoding on a stream with the given bytes and
      cursor, and the cursor it leaves behind. */
  datatype Sniffed = Sniffed(info: EncodingInfos, position: nat)

  function Sniff(data: seq<byte>, position: nat): Sniffed {
    var read := BomBytes(data, position);
    var buffer := BomBuffer(read);
    match ClassifyBom(buffer[0], buffer[1], buffer[2])
    case Some(e) => Sniffed(EncodingInfos(e, true), position + |read|)
    case None => Sniffed(EncodingInfos(Default, false), 0)
  }

  /** GetEncoding: reads three bytes and keeps them consumed when they start
      with a byte-order mark; otherwise rewinds the cursor to 0. A null
      stream throws ArgumentNullException. */
  method GetEncoding(stream: ByteStream?) returns (r: Result<EncodingInfos, Error>)
    modifies stream
    ensures stream == null ==> r == Failure(ArgumentNull)
    ensures stream != null ==> r == Success(Sniff(stream.data, old(stream.position)).info)
    ensures stream != null ==> stream.position == Sniff(stream.data, old(stream.position)).position
  {
    if stream == null {
      return Failure(ArgumentNull);
    }
    var read := stream.Read(3);
    var bom := BomBuffer(read);
    match ClassifyBom(bom[0], bom[1], bom[2])
    case Some(e) => {
      r := CreateNew(Some(e), true);
    }
    case None => {
      stream.SetPosition(0);
      r := CreateNew(Some(Default), false);
    }
  }

  /** The byte-order-mark signatures the switch recognises, with the
      encoding each one selects. */
  predicate StartsWith(data: seq<byte>, signature: seq<byte>) {
    |signature| <= |data| && data[..|signature|] == signature
  }

  function SignatureOf(data: seq<byte>): (e: Option<Encoding>) {
    if StartsWith(data, [0x2B, 0x2F, 0x76]) then Some(UTF7)
    else if StartsWith(data, [0xEF, 0xBB, 0xBF]) then Some(UTF8)
    else if StartsWith(data, [0xFF, 0xFE]) then Some(Unicode)
    else if StartsWith(data, [0xFE, 0xFF]) then Some(BigEndianUnicode)
    else if StartsWith(data, [0x00, 0x00, 0xFE]) then Some(UTF32)
    else None
  }

  /** The zero padding of a short stream never completes a signature: a
      BOM is reported exactly when the bytes from the cursor start with one
      of the signatures, and then every byte read stays consumed; otherwise
      the cursor goes back to 0 and the default encoding is reported. */
  lemma {:induction false} SniffMatchesSignatures(data: seq<byte>, position: nat)
    requires position <= |data|
    ensures Sniff(data, position).info.withBom <==> SignatureOf(data[position..]).Some?
    ensures SignatureOf(data[position..]).Some? ==>
      Sniff(data, position).info.encoding == SignatureOf(data[position..]).value
      && Sniff(data, position).position == position + |BomBytes(data, position)|
    ensures SignatureOf(data[position..]).None? ==>
      Sniff(data, position) == Sniffed(EncodingInfos(Default, false), 0)
  {
    var rest := data[position..];
    var read := BomBytes(data, position);
    var buffer := BomBuffer(read);
    assert read == rest[..|read|];
    if |rest| >= 3 {
      assert read == rest[..3];
    } else if |rest| == 2 {
      assert buffer == [rest[0], rest[1], 0];
    } else if |rest| == 1 {
      assert buffer == [rest[0], 0, 0];
    } else {
      assert buffer == [0, 0, 0];
    }
  }

  /** EF BB BF is UTF-8 with a BOM, and all three bytes stay consumed. */
  lemma Utf8Bom(data: seq<byte>)
    requires |data| >= 3 && data[0] == 0xEF && data[1] == 0xBB && data[2] == 0xBF
    ensures Sniff(data, 0) == Sniffed(EncodingInfos(UTF8, true), 3)
  {
  }

  /** FF FE is UTF-16LE and FE FF is UTF-16BE whatever follows, and the
      third byte read stays consumed too; so FF FE 00 00 is UTF-16LE. */
  lemma Utf16Boms(data: seq<byte>)
    requires |data| >= 3 && ((data[0] == 0xFF && data[1] == 0xFE) || (data[0] == 0xFE && data[1] == 0xFF))
    ensures Sniff(data, 0).info.encoding == (if data[0] == 0xFF then Unicode else BigEndianUnicode)
    ensures Sniff(data, 0).info.withBom && Sniff(data, 0).position == 3
    ensures data[0] == 0xFF && data[2] == 0 && |data| >= 4 && data[3] == 0 ==> Sniff(data, 0).info.encoding == Unicode
  {
  }

  /** An empty stream, or one whose first bytes match no signature, gives
      the default encoding without BOM and a cursor at 0. */
  lemma NoBomRewinds(data: seq<byte>, position: nat)
    requires position <= |data|
    requires |data| == position || (data[position] != 0x2B && data[position] != 0xEF && data[position] != 0xFF && data[position] != 0xFE && data[position] != 0x00)
    ensures Sniff(data, position) == Sniffed(EncodingInfos(Default, false), 0)
  {
  }
}
