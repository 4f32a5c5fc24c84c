/** A history of capacity two that also exposes the item before the
    current one. */
module BufferedStates {

  import opened Wrappers
  import opened Exceptions
  import opened Histories

  /** What Previous returns after the given additions. */
  ghost function PreviousOf<T>(added: seq<T>, default: T): T {
    if |added| < 2 then default else added[|added| - 2]
  }

  /** In C# BufferedState derives from History with size 2; here it owns
      one. */
  class BufferedState<T> {
    const history: History<T>

    ghost predicate Valid()
      reads this, history, history.ring, history.ring.items
    {
      history.Valid() && history.ring.Capacity() == 2
    }

    constructor (default: T)
      ensures Valid() && fresh(history) && fresh(history.ring) && fresh(history.ring.items)
      ensures history.Added == [] && history.ring.Default == default
    {
      history := new History(2, default);
    }

    /** The capacity is always two. */
    function Capacity(): (c: int)
      reads this, history, history.ring, history.ring.items
      requires Valid()
      ensures c == 2
    {
      history.ring.Capacity()
    }

    method Add(item: T)
      requires Valid()
      modifies history, history.ring.items
      ensures Valid() && history.Added == old(history.Added) + [item]
    {
      history.Add(item);
    }

    method Current() returns (x: T)
      requires Valid()
      ensures x == CurrentOf(history.Added, history.ring.Default)
    {
      x := history.Current();
    }

    /** Preceding(1): the item added just before the current one, or the
        default value while fewer than two items have been added. */
    method Previous() returns (x: T)
      requires Valid()
      ensures Success(x) == PrecedingOf(history.Added, 2, 1, history.ring.Default)
      ensures x == PreviousOf(history.Added, history.ring.Default)
    {
      var r := history.Preceding(1);
      x := r.value;
    }
  }

  /** A client: after adding x1, x2, x3 to a new state, Current is x3 and
      Previous is x2; after one addition Previous is still the default. */
  method AddThree<T>(default: T, x1: T, x2: T, x3: T) returns (previousAfterOne: T, current: T, previous: T)
    ensures previousAfterOne == default
    ensures current == x3 && previous == x2
  {
    var state := new BufferedState(default);
    state.Add(x1);
    previousAfterOne := state.Previous();
    state.Add(x2);
    state.Add(x3);
    current := state.Current();
    previous := state.Previous();
  }
}
