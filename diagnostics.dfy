/** Diagnostics and the bag the lexer collects them in. */
module Diagnostics {

  import opened Wrappers
  import opened Exceptions
  import opened TextSpans

  /** A diagnostic: the span it reports on, a message and the exception
      that caused it, if any. */
  datatype Diagnostic = Diagnostic(span: TextSpan, message: string, exception: Option<Error>)

  /** The entries a bag holds after the given diagnostics were added to it in
      order; none of them is null. */
  function Present(ds: seq<Diagnostic>): (r: seq<Option<Diagnostic>>)
    ensures |r| == |ds|
    ensures forall i :: 0 <= i < |ds| ==> r[i] == Some(ds[i])
  {
    seq(|ds|, i requires 0 <= i < |ds| => Some(ds[i]))
  }

  lemma PresentAppend(a: seq<Diagnostic>, b: seq<Diagnostic>)
    ensures Present(a + b) == Present(a) + Present(b)
  {
    assert forall i :: 0 <= i < |a + b| ==> Present(a + b)[i] == (Present(a) + Present(b))[i];
  }

  /** An append-only list of diagnostics. A C# reference to a Diagnostic
      may be null, and the bag does not check for it, so an entry is an
      Option. */
  class DiagnosticBag {
    var items: seq<Option<Diagnostic>>

    constructor ()
      ensures items == []
    {
      items := [];
    }

    /** Appends exactly one entry at the end; null is accepted. */
    method AddDiagnostic(diagnostic: Option<Diagnostic>)
      modifies this
      ensures items == old(items) + [diagnostic]
    {
      items := items + [diagnostic];
    }

    /** Enumerates the entries in insertion order (not sorted by span). */
    method Enumerate() returns (r: seq<Option<Diagnostic>>)
      ensures |r| == |items|
      ensures forall i :: 0 <= i < |items| ==> r[i] == items[i]
    {
      r := items;
    }
  }

  /** A client of the bag: a new bag enumerates nothing, and two
      diagnostics added in descending span order, followed by a null entry,
      are enumerated exactly as they were added. */
  method InsertionOrderIsKept(late: Diagnostic, early: Diagnostic) returns (initially: seq<Option<Diagnostic>>, finally: seq<Option<Diagnostic>>)
    requires late.span.start > early.span.start
    ensures initially == []
    ensures finally == [Some(late), Some(early), None]
  {
    var bag := new DiagnosticBag();
    initially := bag.Enumerate();
    bag.AddDiagnostic(Some(late));
    bag.AddDiagnostic(Some(early));
    bag.AddDiagnostic(None);
    finally := bag.Enumerate();
  }
}
