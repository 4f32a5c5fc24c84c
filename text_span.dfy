/** Source spans: an offset and a length, with the derived end offset. */
module TextSpans {

  import opened Wrappers
  import opened Exceptions

  const Int32Min: int := -0x8000_0000
  const Int32Max: int := 0x7FFF_FFFF

  predicate IsInt32(x: int) {
    Int32Min <= x <= Int32Max
  }

  /** Two's-complement wrap-around of an unchecked C# int computation. */
  function WrapInt32(x: int): (r: int)
    ensures IsInt32(r)
    ensures (r - x) % 0x1_0000_0000 == 0
    ensures IsInt32(x) ==> r == x
  {
    (x - Int32Min) % 0x1_0000_0000 + Int32Min
  }

  /** The constructor stores its arguments verbatim; a negative length is
      not rejected. */
  datatype TextSpan = TextSpan(start: int, length: int) {

    /** The offset just past the span. */
    function End(): (e: int)
      ensures e - length == start
    {
      start + length
    }
  }

  /** FromBounds as written: the length is computed in unchecked 32-bit
      arithmetic, so it wraps when the bounds are too far apart. */
  function FromBounds(start: int, end: int): (span: TextSpan)
    requires IsInt32(start) && IsInt32(end)
    ensures span.start == start
    ensures IsInt32(span.length) && (span.length - (end - start)) % 0x1_0000_0000 == 0
  {
    TextSpan(start, WrapInt32(end - start))
  }

  /** Whenever the difference of the bounds fits an int, the span starts at
      the first bound and ends at the second. */
  lemma FromBoundsRoundTrip(start: int, end: int)
    requires IsInt32(start) && IsInt32(end) && IsInt32(end - start)
    ensures FromBounds(start, end).start == start
    ensures FromBounds(start, end).length == end - start
    ensures FromBounds(start, end).End() == end
  {
  }

  /** The wrap-around breaks the round trip: the widest pair of bounds gives
      a span of length -1 that ends before it starts. */
  lemma FromBoundsWrapsForWideBounds()
    ensures FromBounds(Int32Min, Int32Max).length == -1
    ensures FromBounds(Int32Min, Int32Max).End() != Int32Max
  {
  }

  /** FromBounds with the subtraction in a checked context: it throws an
      OverflowException instead of wrapping, and whenever it returns, the span
      starts at the first bound and ends exactly at the second. */
  function FromBoundsChecked(start: int, end: int): (r: Result<TextSpan, Error>)
    requires IsInt32(start) && IsInt32(end)
    ensures r.Success? <==> IsInt32(end - start)
    ensures r.Failure? ==> r.error == Overflow
    ensures r.Success? ==> r.value.start == start && r.value.End() == end
    ensures r.Success? ==> r.value == FromBounds(start, end)
  {
    if IsInt32(end - start) then Success(TextSpan(start, end - start)) else Failure(Overflow)
  }
}
