/** A decimal digit: a byte-sized value type set once at construction. */
module Digits {

  import opened Wrappers
  import opened Exceptions
  import opened CharClasses

  const MinValue: int := 0  // 0b0
  const MaxValue: int := 9  // 0b1001

  /** The values a Digit can hold: the default 0, and what the conversions
      below let through. */
  type DigitByte = x: int | MinValue <= x <= MaxValue

  /** A C# object reference as CompareTo(object) and Equals(object) see it. */
  datatype Boxed = NullReference | BoxedDigit(digit: Digit) | OtherObject

  datatype Digit = Digit(mValue: DigitByte) {

    /** The implicit conversion to byte. */
    function ToByte(): (b: byte)
      ensures b as int == mValue
    {
      mValue as byte
    }

    /** CompareTo(Digit): the sign of the difference of the values. */
    function CompareTo(other: Digit): (r: int)
      ensures r == -1 || r == 0 || r == 1
      ensures r < 0 <==> mValue < other.mValue
      ensures r == 0 <==> this == other
      ensures r > 0 <==> mValue > other.mValue
    {
      if ToByte() < other.ToByte() then -1
      else if ToByte() > other.ToByte() then 1
      else 0
    }

    /** CompareTo(object): null compares below every digit, anything that is
        not a Digit throws ArgumentException. */
    function CompareToObject(value: Boxed): (r: Result<int, Error>)
      ensures value.NullReference? ==> r == Success(1)
      ensures value.OtherObject? ==> r == Failure(Argument)
      ensures value.BoxedDigit? ==> r.Success? && (r.value == -1 || r.value == 0 || r.value == 1)
      ensures value.BoxedDigit? ==> (r.value < 0 <==> mValue < value.digit.mValue)
      ensures value.BoxedDigit? ==> (r.value == 0 <==> this == value.digit)
      ensures value.BoxedDigit? ==> (r.value > 0 <==> mValue > value.digit.mValue)
    {
      match value
      case NullReference => Success(1)
      case OtherObject => Failure(Argument)
      case BoxedDigit(num) => Success(CompareTo(num))
    }

    /** Equals(Digit): equality of the values. */
    predicate Equals(other: Digit)
      ensures Equals(other) <==> mValue == other.mValue
    {
      ToByte() == other.ToByte()
    }

    /** Equals(object): false for null and for anything not a Digit. */
    predicate EqualsObject(obj: Boxed)
      ensures EqualsObject(obj) <==> obj.BoxedDigit? && obj.digit.mValue == mValue
    {
      obj.BoxedDigit? && Equals(obj.digit)
    }

    /** GetHashCode: the value itself. */
    function GetHashCode(): (h: int)
      ensures h == mValue && 0 <= h <= 9
      ensures forall other: Digit {:trigger other.GetHashCode()} :: Equals(other) ==> other.GetHashCode() == h
    {
      ToByte() as int
    }
  }

  /** CompareTo is antisymmetric and agrees with Equals. */
  lemma CompareToAntisymmetric(a: Digit, b: Digit)
    ensures a.CompareTo(b) == -b.CompareTo(a)
    ensures a.CompareTo(b) == 0 <==> a.Equals(b)
  {
  }

  /** The implicit conversion from int: Convert.ToByte throws an
      OverflowException outside 0..255, and values above 9 throw. */
  function FromInt(d: int): (r: Result<Digit, Error>)
    ensures r.Success? <==> MinValue <= d <= MaxValue
    ensures (d < 0 || d > 255) ==> r == Failure(Overflow)
    ensures MaxValue < d <= 255 ==> r == Failure(GeneralFailure)
    ensures r.Success? ==> r.value.ToByte() as int == d
  {
    if d < 0 || d > 255 then Failure(Overflow)
    else
      var mValue := d as byte;
      if (mValue as int) < MinValue || (mValue as int) > MaxValue then Failure(GeneralFailure)
      else Success(Digit(mValue as int))
  }

  /** Converting a digit to a byte and back gives the same digit. */
  lemma ByteRoundTrip(d: Digit)
    ensures FromInt(d.ToByte() as int) == Success(d)
  {
  }

  /** Byte.TryParse, taken as plain decimal: a non-null, non-empty run of
      ASCII digits whose value fits a byte. */
  function TryParseByte(s: Option<string>): (r: Option<byte>)
    ensures r.Some? ==> s.Some? && |s.value| > 0 && (forall i :: 0 <= i < |s.value| ==> IsDigit(s.value[i]))
    ensures r.Some? ==> r.value as int == DecimalValue(s.value)
    ensures s.Some? && |s.value| > 0 && (forall i :: 0 <= i < |s.value| ==> IsDigit(s.value[i]))
            ==> (r.Some? <==> DecimalValue(s.value) < 256)
  {
    if s.None? || |s.value| == 0 || !(forall i :: 0 <= i < |s.value| ==> IsDigit(s.value[i])) then None
    else
      var n := DecimalValue(s.value);
      if n < 256 then Some(n as byte) else None
  }

  /** Parse as written: the bounds are compared strictly, so only 1..8 are
      accepted, and 0 and 9 throw like every other input. */
  function Parse(s: Option<string>): (r: Result<Digit, Error>)
    ensures r.Success? <==> TryParseByte(s).Some? && MinValue < TryParseByte(s).value as int < MaxValue
    ensures r.Failure? ==> r.error == GeneralFailure
    ensures r.Success? ==> r.value.ToByte() == TryParseByte(s).value
  {
    var parsed := TryParseByte(s);
    if parsed.Some? && (parsed.value as int) < MaxValue && (parsed.value as int) > MinValue then
      Success(Digit(parsed.value as int))
    else
      Failure(GeneralFailure)
  }

  /** The text of a digit: one ASCII character. */
  function DigitText(d: Digit): (s: string)
    ensures |s| == 1 && IsDigit(s[0])
  {
    [('0' as int + d.mValue) as char]
  }

  lemma DigitTextValue(d: Digit)
    ensures TryParseByte(Some(DigitText(d))) == Some(d.ToByte())
  {
    var s := DigitText(d);
    assert s[..0] == [];
    assert DecimalValue(s) == 10 * DecimalValue(s[..0]) + (s[0] as int - '0' as int);
    assert DecimalValue(s) == d.mValue;
  }

  /** The two bounds of the type do not parse back. */
  lemma ParseRejectsBounds()
    ensures Parse(Some("0")) == Failure(GeneralFailure)
    ensures Parse(Some("9")) == Failure(GeneralFailure)
    ensures FromInt(0).Success? && FromInt(9).Success?
  {
    DigitTextValue(Digit(0));
    DigitTextValue(Digit(9));
    assert DigitText(Digit(0)) == "0";
    assert DigitText(Digit(9)) == "9";
  }

  /** Parse with the bounds compared inclusively, as MinValue and MaxValue
      are meant. */
  function ParseInclusive(s: Option<string>): (r: Result<Digit, Error>)
    ensures r.Success? <==> TryParseByte(s).Some? && TryParseByte(s).value as int <= MaxValue
    ensures r.Failure? ==> r.error == GeneralFailure
    ensures r.Success? ==> r.value.ToByte() == TryParseByte(s).value
  {
    var parsed := TryParseByte(s);
    if parsed.Some? && (parsed.value as int) <= MaxValue && (parsed.value as int) >= MinValue then
      Success(Digit(parsed.value as int))
    else
      Failure(GeneralFailure)
  }

  /** Every digit's text parses back to that digit. */
  lemma ParseInclusiveRoundTrip(d: Digit)
    ensures ParseInclusive(Some(DigitText(d))) == Success(d)
  {
    DigitTextValue(d);
  }
}
