/**
 * A cursor over a fixed list of values that wraps around at both ends.
 */
module Cycles {
  import opened Wrappers

  /** `CheckIndex`: an index below zero goes to the last position, an index past
      the end to the first; any other index is kept. */
  function Wrap(index: int, length: nat): (r: int)
    ensures length > 0 ==> 0 <= r < length
    ensures 0 <= index < length ==> r == index
    ensures length == 0 ==> r == (if index < 0 then -1 else 0)
  {
    if index < 0 then length - 1
    else if index >= length then 0
    else index
  }

  /** `Next` undoes `Previous` and `Previous` undoes `Next`. */
  lemma NextPreviousRestore(index: int, length: nat)
    requires 0 <= index < length
    ensures Wrap(Wrap(index + 1, length) - 1, length) == index
    ensures Wrap(Wrap(index - 1, length) + 1, length) == index
  {
  }

  /** The position after `steps` calls to `Next`. */
  function Advance(index: int, length: nat, steps: nat): int
  {
    if steps == 0 then index else Wrap(Advance(index, length, steps - 1) + 1, length)
  }

  /** Within one turn, `steps` calls to `Next` move `steps` places, continuing
      from the first value once the last is passed. */
  lemma {:induction false} AdvanceWithinTurn(index: int, length: nat, steps: nat)
    requires 0 <= index < length && steps <= length
    ensures Advance(index, length, steps) ==
            if index + steps < length then index + steps else index + steps - length
  {
    if steps > 0 {
      AdvanceWithinTurn(index, length, steps - 1);
    }
  }

  /** `Length` calls to `Next` come back to the start. */
  lemma FullTurn(index: int, length: nat)
    requires 0 <= index < length
    ensures Advance(index, length, length) == index
  {
    AdvanceWithinTurn(index, length, length);
  }

  /** `Cycle<T>`: the values, and the position of the current one. */
  class Cycle<T> {
    const values: seq<T>
    var currentIndex: int

    /** The position is on a value. */
    predicate Valid()
      reads this
    {
      0 <= currentIndex < |values|
    }

    /** The start position is not checked. */
    constructor (values: seq<T>, currentIndex: int)
      ensures this.values == values && this.currentIndex == currentIndex
    {
      this.values := values;
      this.currentIndex := currentIndex;
    }

    /** `Current`: the value at the position; `None` is the index-out-of-range
        exception, as on an empty list. */
    function Current(): (r: Option<T>)
      reads this
      ensures r.Some? <==> Valid()
      ensures r.Some? ==> r.value == values[currentIndex]
    {
      if 0 <= currentIndex < |values| then Some(values[currentIndex]) else None
    }

    /** `SetIndex`: the new position, normalised by `CheckIndex`. */
    method SetIndex(index: int)
      modifies this`currentIndex
      ensures currentIndex == Wrap(index, |values|)
      ensures values != [] ==> Valid()
    {
      currentIndex := index;
      CheckIndex();
    }

    /** `Next`: one step forward, wrapping to the first value. */
    method Next() returns (r: Option<T>)
      modifies this`currentIndex
      ensures currentIndex == Wrap(old(currentIndex) + 1, |values|)
      ensures r == Current()
      ensures values != [] ==> Valid() && r.Some?
    {
      currentIndex := currentIndex + 1;
      CheckIndex();
      r := Current();
    }

    /** `Previous`: one step back, wrapping to the last value. */
    method Previous() returns (r: Option<T>)
      modifies this`currentIndex
      ensures currentIndex == Wrap(old(currentIndex) - 1, |values|)
      ensures r == Current()
      ensures values != [] ==> Valid() && r.Some?
    {
      currentIndex := currentIndex - 1;
      CheckIndex();
      r := Current();
    }

    /** `CheckIndex`: puts an index that fell off either end back on the list. */
    method CheckIndex()
      modifies this`currentIndex
      ensures currentIndex == Wrap(old(currentIndex), |values|)
    {
      if currentIndex < 0 {
        currentIndex := |values| - 1;
      } else if currentIndex >= |values| {
        currentIndex := 0;
      }
    }
  }
}
