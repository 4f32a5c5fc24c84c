/** A bounded history: a circular array that remembers the latest items
    added to it. */
module Histories {

  import opened Wrappers
  import opened Exceptions
  import opened CircularArrays

  function Min(a: int, b: int): int {
    if a < b then a else b
  }

  /** The item added k additions before the latest one. */
  ghost function Recent<T>(added: seq<T>, k: int): T
    requires 0 <= k < |added|
  {
    added[|added| - 1 - k]
  }

  /** The physical slot holding the item added k additions before the
      latest: k + 1 slots behind the insert pointer, wrapping once. */
  function BackSlot(pointer: int, k: int, capacity: int): int {
    if pointer - 1 - k < 0 then pointer - 1 - k + capacity else pointer - 1 - k
  }

  /** The indexer reaches the back slot from the index pointer - 1 - k. */
  lemma BackSlotIsResidue(pointer: int, k: int, capacity: int)
    requires 0 <= pointer < capacity && 0 <= k < capacity
    ensures 0 <= BackSlot(pointer, k, capacity) < capacity
    ensures (pointer - 1 - k) % capacity == BackSlot(pointer, k, capacity)
  {
    var x := pointer - 1 - k;
    if x >= 0 {
      ModUnique(x, 0, x, capacity);
    } else {
      ModUnique(x, -1, x + capacity, capacity);
    }
  }

  /** What Current returns after the given additions: the latest item, or
      the default value before the first addition. */
  ghost function CurrentOf<T>(added: seq<T>, default: T): T {
    if |added| == 0 then default else added[|added| - 1]
  }

  /** What Preceding(k) returns after the given additions to a history of
      the given capacity. */
  ghost function PrecedingOf<T>(added: seq<T>, capacity: int, k: int, default: T): Result<T, Error> {
    if k <= 0 then Failure(ArgumentOutOfRange)
    else if k >= Min(|added|, capacity) then Success(default)
    else Success(Recent(added, k))
  }

  /** Count never exceeds the capacity: it grows by one per addition until
      it reaches the capacity, then stays there. */
  lemma CountGrowsThenSaturates<T>(added: seq<T>, x: T, capacity: int)
    requires capacity > 0
    ensures Min(|added + [x]|, capacity) <= capacity
    ensures Min(|added|, capacity) < capacity ==> Min(|added + [x]|, capacity) == Min(|added|, capacity) + 1
    ensures Min(|added|, capacity) == capacity ==> Min(|added + [x]|, capacity) == capacity
  {
  }

  /** A history whose items live in a circular array. In C# History
      derives from CircularArray; here it owns one. */
  class History<T> {
    const ring: CircularArray<T>
    var count: int
    var pointer: int
    /** Every item added so far, oldest first. */
    ghost var Added: seq<T>

    ghost predicate Valid()
      reads this, ring, ring.items
    {
      && ring.Valid()
      && 0 <= pointer < ring.Capacity()
      && count == Min(|Added|, ring.Capacity())
      && (count < ring.Capacity() ==> pointer == count)
      && (forall k {:trigger Recent(Added, k)} :: 0 <= k < count ==>
            ring.items[BackSlot(pointer, k, ring.Capacity())] == Recent(Added, k))
      && (forall j :: count <= j < ring.Capacity() ==> ring.items[j] == ring.Default)
    }

    constructor (size: int, default: T)
      requires size > 0
      ensures Valid() && fresh(ring) && fresh(ring.items)
      ensures Added == [] && ring.Capacity() == size && ring.Default == default
    {
      ring := new CircularArray(size, default);
      count, pointer := 0, 0;
      Added := [];
    }

    /** The public constructor: a size that is not positive throws
        ArgumentOutOfRangeException. */
    static method Create(size: int, default: T) returns (r: Result<History<T>, Error>)
      ensures r.Failure? <==> size <= 0
      ensures r.Failure? ==> r.error == ArgumentOutOfRange
      ensures r.Success? ==> fresh(r.value) && fresh(r.value.ring) && fresh(r.value.ring.items) && r.value.Valid()
      ensures r.Success? ==> r.value.Added == [] && r.value.ring.Capacity() == size
    {
      if size <= 0 {
        return Failure(ArgumentOutOfRange);
      }
      var h := new History(size, default);
      r := Success(h);
    }

    /** The number of items held: at most the capacity. */
    function Count(): (n: int)
      reads this, ring, ring.items
      requires Valid()
      ensures 0 <= n <= ring.Capacity()
      ensures n == Min(|Added|, ring.Capacity())
    {
      count
    }

    /** Writes the item at the insert pointer and advances the pointer,
        wrapping it back into [0, Capacity). */
    method Add(item: T)
      requires Valid()
      modifies this, ring.items
      ensures Valid() && ring.items == old(ring.items) && ring.Capacity() == old(ring.Capacity())
      ensures Added == old(Added) + [item]
      ensures count == (if old(count) < ring.Capacity() then old(count) + 1 else old(count))
    {
      var cap := ring.Capacity();
      ModUnique(pointer, 0, pointer, cap);
      ring.Set(pointer, item);
      pointer := pointer + 1;
      if pointer >= cap {
        pointer := pointer - cap;
      }
      if count < cap {
        count := count + 1;
      }
      Added := Added + [item];
      forall k | 0 <= k < count
        ensures ring.items[BackSlot(pointer, k, cap)] == Recent(Added, k)
      {
        if k > 0 {
          assert BackSlot(pointer, k, cap) == BackSlot(old(pointer), k - 1, cap);
          assert Recent(Added, k) == Recent(old(Added), k - 1);
        }
      }
    }

    /** The latest item; the default value before the first addition,
        because index -1 wraps to the last slot, which nothing has written. */
    method Current() returns (x: T)
      requires Valid()
      ensures x == CurrentOf(Added, ring.Default)
    {
      BackSlotIsResidue(pointer, 0, ring.Capacity());
      x := ring.Get(pointer - 1);
      if count > 0 {
        assert x == Recent(Added, 0);
      }
    }

    /** The item added k additions before Current: ArgumentOutOfRange for
        k <= 0, the default value when fewer than k + 1 items are held. */
    method Preceding(k: int) returns (r: Result<T, Error>)
      requires Valid()
      ensures r == PrecedingOf(Added, ring.Capacity(), k, ring.Default)
    {
      if k <= 0 {
        return Failure(ArgumentOutOfRange);
      }
      if k >= count {
        return Success(ring.Default);
      }
      BackSlotIsResidue(pointer, k, ring.Capacity());
      var x := ring.Get(pointer - 1 - k);
      assert x == Recent(Added, k);
      r := Success(x);
    }

    /** Enumeration, inherited from the circular array: the physical slots
        in storage order. */
    method Enumerate() returns (s: seq<T>)
      requires Valid()
      ensures |s| == ring.Capacity()
      ensures forall i :: 0 <= i < |s| ==> s[i] == ring.items[i]
    {
      s := ring.Enumerate();
    }
  }
}
