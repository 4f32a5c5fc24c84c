/** The accumulator of the characters of the token being read. */
module CharBags {

  import opened Wrappers
  import opened Exceptions
  import opened CharClasses

  /** A growable, clearable run of characters. Every change replaces the
      array field with a new array. */
  class ReadCharBag {
    var readChars: array<char>

    /** The characters held, in insertion order. */
    ghost function Contents(): seq<char>
      reads this, readChars
    {
      readChars[..]
    }

    constructor ()
      ensures Contents() == [] && fresh(readChars)
    {
      readChars := new char[0];
    }

    /** An independent copy of another bag; a null bag throws
        ArgumentNullException. */
    static method FromCharBag(initialBag: ReadCharBag?) returns (r: Result<ReadCharBag, Error>)
      ensures initialBag == null <==> r.Failure?
      ensures r.Failure? ==> r.error == ArgumentNull
      ensures r.Success? ==> fresh(r.value) && fresh(r.value.readChars)
      ensures r.Success? ==> r.value.Contents() == initialBag.Contents()
    {
      if initialBag == null {
        return Failure(ArgumentNull);
      }
      var result := new ReadCharBag();
      var copy := new char[initialBag.readChars.Length];
      forall i | 0 <= i < copy.Length {
        copy[i] := initialBag.readChars[i];
      }
      result.readChars := copy;
      r := Success(result);
    }

    /** Appends one character: the array grows by one, earlier characters
        stay where they were. */
    method Add(c: char)
      modifies this
      ensures fresh(readChars)
      ensures Contents() == old(Contents()) + [c]
    {
      var newLength := readChars.Length + 1;
      var newArray := new char[newLength];
      forall i | 0 <= i < readChars.Length {
        newArray[i] := readChars[i];
      }
      newArray[newLength - 1] := c;
      readChars := newArray;
    }

    /** Dispose empties the bag. */
    method Dispose()
      modifies this
      ensures fresh(readChars) && Contents() == []
    {
      EmptyBag();
    }

    /** Enumerates the characters in insertion order. */
    method Enumerate() returns (s: seq<char>)
      ensures |s| == |Contents()|
      ensures forall i :: 0 <= i < |s| ==> s[i] == Contents()[i]
    {
      s := readChars[..];
    }

    /** The characters in insertion order, as a string. */
    method ToString() returns (s: string)
      ensures |s| == readChars.Length
      ensures forall i :: 0 <= i < |s| ==> s[i] == readChars[i]
    {
      s := readChars[..];
    }

    method EmptyBag()
      modifies this
      ensures fresh(readChars) && Contents() == []
    {
      readChars := new char[0];
    }

    /** The implicit conversion to char[]: the bag's own array (not a copy),
        or a new empty array for a null bag. */
    static method ToCharArray(c: ReadCharBag?) returns (a: array<char>)
      ensures c != null ==> a == c.readChars
      ensures c == null ==> fresh(a) && a.Length == 0
    {
      if c == null {
        a := new char[0];
      } else {
        a := c.readChars;
      }
    }

    /** The implicit conversion to byte[]: a new array of the character
        codes; Convert.ToByte throws OverflowException for a code above 255,
        and a null bag gives a new empty array. */
    static method ToByteArray(c: ReadCharBag?) returns (r: Result<array<byte>, Error>)
      ensures c == null ==> r.Success? && fresh(r.value) && r.value.Length == 0
      ensures c != null ==> (r.Failure? <==> exists i :: 0 <= i < c.readChars.Length && c.readChars[i] as int > 255)
      ensures r.Failure? ==> r.error == Overflow
      ensures c != null && r.Success? ==> fresh(r.value) && r.value.Length == c.readChars.Length
      ensures c != null && r.Success? ==> forall i :: 0 <= i < r.value.Length ==> r.value[i] as int == c.readChars[i] as int
    {
      if c == null {
        var empty := new byte[0];
        return Success(empty);
      }
      var bytes := new byte[c.readChars.Length];
      var i := 0;
      while i < c.readChars.Length
        invariant 0 <= i <= c.readChars.Length
        invariant forall j :: 0 <= j < i ==> c.readChars[j] as int <= 255 && bytes[j] as int == c.readChars[j] as int
      {
        var code := c.readChars[i] as int;
        if code > 255 {
          return Failure(Overflow);
        }
        bytes[i] := code as byte;
        i := i + 1;
      }
      r := Success(bytes);
    }
  }
}
