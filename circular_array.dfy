/** A fixed-size array indexed modulo its length. */
module CircularArrays {

  import opened Wrappers
  import opened Exceptions

  /** C#'s % on a positive divisor: the remainder takes the sign of the
      dividend (truncated division), unlike Dafny's Euclidean %. */
  function CsRemainder(a: int, b: int): (r: int)
    requires b > 0
    ensures -b < r < b
    ensures a >= 0 ==> r == a % b
    ensures a < 0 ==> r == -((-a) % b)
  {
    if a >= 0 then a % b else -((-a) % b)
  }

  /** The slot the indexer uses for an index: ((index % c) + c) % c with
      C#'s remainder. */
  function Slot(index: int, capacity: int): (r: int)
    requires capacity > 0
  {
    CsRemainder(CsRemainder(index, capacity) + capacity, capacity)
  }

  /** Every index, negative ones included, lands in [0, capacity) on its
      residue modulo the capacity. */
  lemma SlotIsResidue(index: int, capacity: int)
    requires capacity > 0
    ensures 0 <= Slot(index, capacity) < capacity
    ensures Slot(index, capacity) == index % capacity
  {
    var c := capacity;
    ModUnique(c, 1, 0, c);
    if index >= 0 {
      var r := index % c;
      ModUnique(r + c, 1, r, c);
    } else {
      var m := (-index) % c;
      var q := (-index) / c;
      if m == 0 {
        ModUnique(index, -q, 0, c);
      } else {
        ModUnique(c - m, 0, c - m, c);
        ModUnique(index, -q - 1, c - m, c);
      }
    }
  }

  lemma MulAtLeast(d: int, c: int)
    requires d >= 1 && c > 0
    ensures d * c >= c
  {
    if d > 1 {
      MulAtLeast(d - 1, c);
      assert d * c == (d - 1) * c + c;
    }
  }

  /** Euclidean division is unique: a quotient and remainder in [0, c)
      are the ones Dafny's / and % give. */
  lemma ModUnique(x: int, q: int, r: int, c: int)
    requires c > 0 && 0 <= r < c && x == q * c + r
    ensures x % c == r && x / c == q
  {
    var d := q - x / c;
    assert d * c == q * c - (x / c) * c;
    assert d * c == x % c - r;
    if d >= 1 {
      MulAtLeast(d, c);
    } else if d <= -1 {
      MulAtLeast(-d, c);
    }
  }

  /** Two indexes reach the same slot exactly when they are congruent
      modulo the capacity. */
  lemma SlotCongruence(i: int, j: int, capacity: int)
    requires capacity > 0
    ensures Slot(i, capacity) == Slot(j, capacity) <==> (i - j) % capacity == 0
  {
    SlotIsResidue(i, capacity);
    SlotIsResidue(j, capacity);
    ResidueCongruence(i, j, capacity);
  }

  /** Equal residues are a difference divisible by c. */
  lemma ResidueCongruence(i: int, j: int, c: int)
    requires c > 0
    ensures i % c == j % c <==> (i - j) % c == 0
  {
    var qi, ri := i / c, i % c;
    var qj, rj := j / c, j % c;
    assert i == qi * c + ri && j == qj * c + rj;
    var k := qi - qj;
    assert k * c == qi * c - qj * c;
    if ri >= rj {
      ModUnique(i - j, k, ri - rj, c);
    } else {
      ModUnique(i - j, k - 1, ri - rj + c, c);
    }
  }

  /** A slot array whose indexer reduces every int index modulo the
      capacity. C# fills a new array with default(T); Dafny has no such
      expression, so the default value is given at construction. */
  class CircularArray<T> {
    var items: array<T>
    const Default: T

    ghost predicate Valid()
      reads this
    {
      items.Length > 0
    }

    constructor (size: int, default: T)
      requires size > 0
      ensures Valid() && fresh(items) && Default == default
      ensures items[..] == seq(size, _ => default)
    {
      Default := default;
      items := new T[size](_ => default);
    }

    /** The public constructor: a size that is not positive throws
        ArgumentOutOfRangeException. */
    static method Create(size: int, default: T) returns (r: Result<CircularArray<T>, Error>)
      ensures r.Failure? <==> size <= 0
      ensures r.Failure? ==> r.error == ArgumentOutOfRange
      ensures r.Success? ==> fresh(r.value) && fresh(r.value.items) && r.value.Valid()
      ensures r.Success? ==> r.value.Capacity() == size && r.value.items[..] == seq(size, _ => default)
    {
      if size <= 0 {
        return Failure(ArgumentOutOfRange);
      }
      var a := new CircularArray(size, default);
      r := Success(a);
    }

    function Capacity(): int
      reads this
    {
      items.Length
    }

    /** The indexer's getter. */
    method Get(index: int) returns (x: T)
      requires Valid()
      ensures 0 <= Slot(index, Capacity()) < Capacity()
      ensures x == items[Slot(index, Capacity())]
      ensures x == items[index % Capacity()]
    {
      SlotIsResidue(index, items.Length);
      x := items[Slot(index, items.Length)];
    }

    /** The indexer's setter: one slot changes, every index congruent to
        the given one reads the new value, and the capacity stays. */
    method Set(index: int, x: T)
      requires Valid()
      modifies items
      ensures Valid() && Capacity() == old(Capacity())
      ensures items[..] == old(items[..])[index % Capacity() := x]
      ensures forall j {:trigger j % Capacity()} :: (j - index) % Capacity() == 0 ==> items[j % Capacity()] == x
    {
      SlotIsResidue(index, items.Length);
      items[Slot(index, items.Length)] := x;
      forall j | (j - index) % Capacity() == 0
        ensures items[j % Capacity()] == x
      {
        SlotCongruence(j, index, items.Length);
        SlotIsResidue(j, items.Length);
      }
    }

    /** Replaces the slots with a fresh array of the given size, every slot
        holding the default value; a size that is not positive throws. */
    method SetSize(size: int) returns (r: Outcome<Error>)
      requires Valid()
      modifies this
      ensures Valid()
      ensures r.Fail? <==> size <= 0
      ensures r.Fail? ==> r.error == ArgumentOutOfRange && items == old(items)
      ensures r.Pass? ==> fresh(items) && items[..] == seq(size, _ => Default)
    {
      if size <= 0 {
        return Fail(ArgumentOutOfRange);
      }
      items := new T[size](_ => Default);
      r := Pass;
    }

    /** Resets every slot to the default value and keeps the capacity. */
    method Clear()
      requires Valid()
      modifies this
      ensures Valid() && fresh(items) && Capacity() == old(Capacity())
      ensures items[..] == seq(old(Capacity()), _ => Default)
    {
      var _ := SetSize(Capacity());
    }

    /** Enumeration: the slots in storage order, exactly Capacity of them. */
    method Enumerate() returns (s: seq<T>)
      ensures |s| == Capacity()
      ensures forall i :: 0 <= i < |s| ==> s[i] == items[i]
    {
      s := items[..];
    }
  }
}
