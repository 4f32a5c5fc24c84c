/** The byte source the lexer reads: a sequence of bytes with a cursor.
    This stands for the .NET Stream the code is given; only the members the
    core calls are modelled. */
module Streams {

  import opened CharClasses

  class ByteStream {
    const data: seq<byte>
    /** True for the Stream.Null singleton, which holds no bytes. */
    const isNullStream: bool
    var position: nat

    ghost predicate Valid()
      reads this
    {
      isNullStream ==> data == []
    }

    constructor (data: seq<byte>)
      ensures Valid() && this.data == data && !isNullStream && position == 0
    {
      this.data := data;
      isNullStream := false;
      position := 0;
    }

    /** Stream.Null. */
    constructor Null()
      ensures Valid() && data == [] && isNullStream && position == 0
    {
      data := [];
      isNullStream := true;
      position := 0;
    }

    /** The byte under the cursor, advancing the cursor; -1 and no move once
        the cursor is at or past the end. */
    method ReadByte() returns (b: int)
      modifies this
      ensures old(position) < |data| ==> b == data[old(position)] as int && position == old(position) + 1
      ensures old(position) >= |data| ==> b == -1 && position == old(position)
    {
      if position < |data| {
        b := data[position] as int;
        position := position + 1;
      } else {
        b := -1;
      }
    }

    /** Read(buffer, 0, count): up to count bytes from the cursor. */
    method Read(count: nat) returns (bytes: seq<byte>)
      modifies this
      ensures old(position) < |data| ==> bytes == data[old(position)..if old(position) + count <= |data| then old(position) + count else |data|]
      ensures old(position) >= |data| ==> bytes == []
      ensures position == old(position) + |bytes|
    {
      if position >= |data| {
        bytes := [];
      } else {
        var end := if position + count <= |data| then position + count else |data|;
        bytes := data[position..end];
        position := end;
      }
    }

    /** The Position setter. */
    method SetPosition(p: nat)
      modifies this
      ensures position == p
    {
      position := p;
    }
  }
}
