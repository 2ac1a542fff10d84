/**
 * Simultaneous Opposing Cardinal Directions: how a raw direction whose
 * Backward and Forward (or Up and Down) bits are both set is resolved, under
 * four policies. `Stick` is the per-frame stick reading the policies look
 * back at.
 */
module Socd {
  import opened Buttons

  datatype SOCDMode = Neutral | UpPriority | LastPriority | Bypass

  /** One frame's stick: the cleaned direction, the raw one, and whether the raw one is held. */
  datatype Stick = Stick(Direction: Direction, Raw: Direction, Holding: bool)

  predicate HasHorizontalOpposingDirections(d: Direction)
  {
    HasFlag(d, Backward) && HasFlag(d, Forward)
  }

  predicate HasVerticalOpposingDirections(d: Direction)
  {
    HasFlag(d, Up) && HasFlag(d, Down)
  }

  predicate HasOpposingDirections(d: Direction)
  {
    HasHorizontalOpposingDirections(d) || HasVerticalOpposingDirections(d)
  }

  predicate IsSingle(mode: SOCDMode, d: Direction)
  {
    !(mode == Bypass && HasOpposingDirections(d))
  }

  /** The single horizontal bit the previous cleaned direction kept (Backward tested first). */
  function LastUsedHorizontal(previous: Direction): Direction
  {
    if HasFlag(previous, Backward) then Backward
    else if HasFlag(previous, Forward) then Forward
    else Buttons.Neutral
  }

  /** The single vertical bit the previous cleaned direction kept (Up tested first). */
  function LastUsedVertical(previous: Direction): Direction
  {
    if HasFlag(previous, Up) then Up
    else if HasFlag(previous, Down) then Down
    else Buttons.Neutral
  }

  /** The horizontal step of `Clean`, taken when Backward and Forward are both set. */
  function CleanHorizontal(mode: SOCDMode, direction: Direction, last: Stick): Direction
  {
    match mode
    case Neutral | UpPriority => direction & !Forward & !Backward
    case LastPriority =>
      if direction == last.Raw then last.Direction
      else if HasHorizontalOpposingDirections(last.Raw) then
        (direction & !(Backward | Forward)) | LastUsedHorizontal(last.Direction)
      else if HasFlag(last.Raw, Backward) && !HasFlag(last.Raw, Forward) then direction & !Backward
      else if HasFlag(last.Raw, Forward) && !HasFlag(last.Raw, Backward) then direction & !Forward
      else direction
    case Bypass => direction
  }

  /**
   * The vertical step of `Clean`, taken when Up and Down are both set. Under
   * LastPriority the test on the previous raw's single bit is not chained to
   * the two tests before it by an `else`: it runs after them too.
   */
  function CleanVertical(mode: SOCDMode, direction: Direction, last: Stick): Direction
  {
    match mode
    case Neutral => direction & !Up & !Down
    case UpPriority => direction & !Down
    case LastPriority =>
      var kept :=
        if direction == last.Raw then last.Direction
        else if HasVerticalOpposingDirections(last.Raw) then
          (direction & !(Up | Down)) | LastUsedVertical(last.Direction)
        else direction;
      if HasFlag(last.Raw, Up) && !HasFlag(last.Raw, Down) then kept & !Up
      else if HasFlag(last.Raw, Down) && !HasFlag(last.Raw, Up) then kept & !Down
      else kept
    case Bypass => direction
  }

  /** `SOCD.Clean`: the horizontal conflict is resolved first, then the vertical one
      of whatever the horizontal step left. */
  function Clean(mode: SOCDMode, direction: Direction, last: Stick): Direction
  {
    if mode == Bypass then direction
    else
      var horizontal :=
        if HasHorizontalOpposingDirections(direction) then CleanHorizontal(mode, direction, last)
        else direction;
      if HasVerticalOpposingDirections(horizontal) then CleanVertical(mode, horizontal, last)
      else horizontal
  }

  /** `SOCD.GetComponents`: the raw direction (except under Bypass), then each of its
      set bits in the order Backward, Up, Down, Forward. */
  function GetComponents(mode: SOCDMode, stick: Stick): seq<Direction>
  {
    (if mode == Bypass then [] else [stick.Raw]) + AxisBits(stick.Raw)
  }

  // ---------------------------------------------------------------------
  // Properties of the policies

  /** Bypass hands the raw direction through, opposing bits included. */
  lemma BypassKeepsRaw(d: Direction, last: Stick)
    ensures Clean(Bypass, d, last) == d
    ensures IsSingle(Bypass, d) <==> !HasOpposingDirections(d)
  {
  }

  /** A direction without any opposing pair is left alone by every policy. */
  lemma NoConflictUnchanged(mode: SOCDMode, d: Direction, last: Stick)
    requires !HasOpposingDirections(d)
    ensures Clean(mode, d, last) == d
  {
  }

  /** The bits Neutral clears: both bits of every axis in conflict. */
  function NeutralMask(d: Direction): Direction
  {
    (if HasHorizontalOpposingDirections(d) then Backward | Forward else 0)
    | (if HasVerticalOpposingDirections(d) then Up | Down else 0)
  }

  /** Neutral clears exactly the two bits of each conflicting axis, so its result
      never holds an opposing pair and never depends on the previous frame. */
  lemma NeutralClearsConflicts(d: Direction, last: Stick)
    ensures Clean(Neutral, d, last) == d & !NeutralMask(d)
    ensures !HasOpposingDirections(Clean(Neutral, d, last))
  {
  }

  /** UpPriority clears both horizontal bits of a horizontal conflict, but only Down
      of a vertical one; its result never holds an opposing pair either. */
  lemma UpPriorityKeepsUp(d: Direction, last: Stick)
    ensures var mask := (if HasHorizontalOpposingDirections(d) then Backward | Forward else 0)
                        | (if HasVerticalOpposingDirections(d) then Down else 0);
            Clean(UpPriority, d, last) == d & !mask
    ensures HasVerticalOpposingDirections(d) ==> HasFlag(Clean(UpPriority, d, last), Up)
    ensures !HasOpposingDirections(Clean(UpPriority, d, last))
  {
  }

  /** LastPriority, raw unchanged since the previous frame: the previous cleaned
      direction is reused, as long as it is itself conflict-free. */
  lemma LastPriorityRepeatsPrevious(d: Direction, last: Stick)
    requires d == last.Raw && HasOpposingDirections(d)
    requires !HasOpposingDirections(last.Direction)
    ensures Clean(LastPriority, d, last) == last.Direction
  {
  }

  /** LastPriority on a horizontal conflict the previous raw already had: the axis
      keeps the single bit the previous cleaned direction kept (Backward first), the
      rest of the direction is untouched. */
  lemma LastPriorityHorizontalSticks(d: Direction, last: Stick)
    requires HasHorizontalOpposingDirections(d) && d != last.Raw
    requires HasHorizontalOpposingDirections(last.Raw)
    ensures CleanHorizontal(LastPriority, d, last) & (Backward | Forward) == LastUsedHorizontal(last.Direction)
    ensures CleanHorizontal(LastPriority, d, last) & !(Backward | Forward) == d & !(Backward | Forward)
  {
  }

  /** LastPriority on a horizontal conflict that is new: the bit held alone in the
      previous raw is dropped, so the newly engaged direction wins; from a raw with
      neither bit, both bits stay. */
  lemma LastPriorityHorizontalNewest(d: Direction, last: Stick)
    requires HasHorizontalOpposingDirections(d) && !HasHorizontalOpposingDirections(last.Raw)
    ensures HasFlag(last.Raw, Backward) ==> CleanHorizontal(LastPriority, d, last) == d & !Backward
    ensures HasFlag(last.Raw, Forward) ==> CleanHorizontal(LastPriority, d, last) == d & !Forward
    ensures !HasFlag(last.Raw, Backward) && !HasFlag(last.Raw, Forward) ==>
              CleanHorizontal(LastPriority, d, last) == d
  {
  }

  /** LastPriority on a vertical conflict the previous raw already had: the axis keeps
      the single bit the previous cleaned direction kept (Up first). */
  lemma LastPriorityVerticalSticks(d: Direction, last: Stick)
    requires HasVerticalOpposingDirections(d) && d != last.Raw
    requires HasVerticalOpposingDirections(last.Raw)
    ensures CleanVertical(LastPriority, d, last) & (Up | Down) == LastUsedVertical(last.Direction)
    ensures CleanVertical(LastPriority, d, last) & !(Up | Down) == d & !(Up | Down)
  {
  }

  /** LastPriority on a new vertical conflict: the bit held alone in the previous raw
      is dropped; from a raw with neither bit, both bits stay. */
  lemma LastPriorityVerticalNewest(d: Direction, last: Stick)
    requires HasVerticalOpposingDirections(d) && !HasVerticalOpposingDirections(last.Raw)
    ensures HasFlag(last.Raw, Up) ==> CleanVertical(LastPriority, d, last) == d & !Up
    ensures HasFlag(last.Raw, Down) ==> CleanVertical(LastPriority, d, last) == d & !Down
    ensures !HasFlag(last.Raw, Up) && !HasFlag(last.Raw, Down) ==>
              CleanVertical(LastPriority, d, last) == d
  {
  }

  /** The single-bit test that runs after the other two vertical LastPriority tests
      never changes their outcome: chaining it with `else`, as the horizontal step
      does, would give the same result. */
  lemma VerticalFallThroughHarmless(d: Direction, last: Stick)
    requires HasVerticalOpposingDirections(d)
    ensures CleanVertical(LastPriority, d, last) ==
      if d == last.Raw then last.Direction
      else if HasVerticalOpposingDirections(last.Raw) then
        (d & !(Up | Down)) | LastUsedVertical(last.Direction)
      else if HasFlag(last.Raw, Up) && !HasFlag(last.Raw, Down) then d & !Up
      else if HasFlag(last.Raw, Down) && !HasFlag(last.Raw, Up) then d & !Down
      else d
  {
  }

  /** Unlike Neutral and UpPriority, LastPriority can leave an opposing pair: two
      opposing bits engaged on the same frame from a released axis both stay. */
  lemma LastPriorityMayKeepBoth()
    ensures Clean(LastPriority, Up | Down, Stick(Buttons.Neutral, Buttons.Neutral, false)) == Up | Down
    ensures Clean(LastPriority, Backward | Forward, Stick(Buttons.Neutral, Buttons.Neutral, false)) == Backward | Forward
  {
  }

  /** The OR of a list of directions. */
  function Union(ds: seq<Direction>): Direction
  {
    if ds == [] then 0 else ds[0] | Union(ds[1..])
  }

  /** The axis bits of `d`, one list entry per set bit, in the order Backward, Up, Down, Forward. */
  function AxisBits(d: Direction): seq<Direction>
  {
    (if HasFlag(d, Backward) then [Backward] else [])
    + (if HasFlag(d, Up) then [Up] else [])
    + (if HasFlag(d, Down) then [Down] else [])
    + (if HasFlag(d, Forward) then [Forward] else [])
  }

  /** The single-bit components OR back to exactly the four axis bits of the raw direction. */
  lemma AxisBitsCoverRaw(d: Direction)
    ensures forall i | 0 <= i < |AxisBits(d)| ::
              AxisBits(d)[i] in {Backward, Up, Down, Forward} && HasFlag(d, AxisBits(d)[i])
    ensures Union(AxisBits(d)) == d & (Up | Down | Forward | Backward)
  {
    AxisBitsAreSetBits(d);
    AxisBitsUnion(d);
  }

  /** Each component is one of the four axis bits, set in `d`. */
  lemma AxisBitsAreSetBits(d: Direction)
    ensures forall i | 0 <= i < |AxisBits(d)| ::
              AxisBits(d)[i] in {Backward, Up, Down, Forward} && HasFlag(d, AxisBits(d)[i])
  {
  }

  lemma {:induction false} AxisBitsUnion(d: Direction)
    ensures Union(AxisBits(d)) == d & (Up | Down | Forward | Backward)
  {
    var b := if HasFlag(d, Backward) then [Backward] else [];
    var u := if HasFlag(d, Up) then [Up] else [];
    var dn := if HasFlag(d, Down) then [Down] else [];
    var f := if HasFlag(d, Forward) then [Forward] else [];
    assert AxisBits(d) == b + (u + (dn + f));
    UnionAppend(b, u + (dn + f));
    UnionAppend(u, dn + f);
    UnionAppend(dn, f);
    assert Union(b) == (if HasFlag(d, Backward) then Backward else 0);
    assert Union(u) == (if HasFlag(d, Up) then Up else 0);
    assert Union(dn) == (if HasFlag(d, Down) then Down else 0);
    assert Union(f) == (if HasFlag(d, Forward) then Forward else 0);
    AxisMask(d);
  }

  /** Keeping each axis bit of `d` that is set is masking `d` with the four of them. */
  lemma AxisMask(d: Direction)
    ensures (if HasFlag(d, Backward) then Backward else 0)
            | ((if HasFlag(d, Up) then Up else 0)
               | ((if HasFlag(d, Down) then Down else 0) | (if HasFlag(d, Forward) then Forward else 0)))
            == d & (Up | Down | Forward | Backward)
  {
  }

  /** Every mode but Bypass yields the raw direction first; what follows is one
      single-bit direction per axis bit set in the raw direction, and together they
      make up exactly its four axis bits. */
  lemma ComponentsCoverRaw(mode: SOCDMode, stick: Stick)
    ensures var cs := GetComponents(mode, stick);
            var bits := if mode == Bypass then cs else cs[1..];
            && (mode != Bypass ==> |cs| > 0 && cs[0] == stick.Raw)
            && (forall i | 0 <= i < |bits| :: bits[i] in {Backward, Up, Down, Forward} && HasFlag(stick.Raw, bits[i]))
            && Union(bits) == stick.Raw & (Up | Down | Forward | Backward)
  {
    AxisBitsCoverRaw(stick.Raw);
    var cs := GetComponents(mode, stick);
    var bits := if mode == Bypass then cs else cs[1..];
    assert bits == AxisBits(stick.Raw);
  }

  lemma {:induction false} UnionAppend(xs: seq<Direction>, ys: seq<Direction>)
    ensures Union(xs + ys) == Union(xs) | Union(ys)
    decreases |xs|
  {
    if xs == [] {
      assert xs + ys == ys;
    } else {
      assert (xs + ys)[0] == xs[0];
      assert (xs + ys)[1..] == xs[1..] + ys;
      UnionAppend(xs[1..], ys);
    }
  }
}
