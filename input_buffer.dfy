/**
 * The history shown on screen: one line per distinct input, the newest last,
 * at most `MaxEntries` of them.
 */
module InputBuffers {
  import opened XnaInput
  import opened Socd
  import opened GameInputs
  import InputEntries
  import InputMaps
  import B = Buttons

  /** The settings the history reads on every frame. */
  datatype Settings = Settings(SOCD: SOCDMode, EnabledDirections: set<DirectionSource>,
                               AutoCorrectMultiple: bool, HideButtonRelease: bool,
                               MaxEntries: int)

  /** A line of the history as a value: its state and how long it was held. */
  datatype Line = Line(State: State, HoldingFrames: int)

  function Last(lines: seq<Line>): Line
    requires lines != []
  {
    lines[|lines| - 1]
  }

  /** The auto-correct rule: a line seen for a single frame that pressed something,
      followed by another press, is taken as one sloppy multi-button press. */
  predicate ShouldMerge(last: Line, current: State, autoCorrect: bool)
  {
    autoCorrect && last.HoldingFrames == 1 && last.State.HasPressed() && current.HasPressed()
  }

  /** `ShrinkBuffer`: the oldest line goes when there are too many. */
  function Shrink(lines: seq<Line>, maxEntries: int): seq<Line>
    requires lines != []
  {
    if |lines| > maxEntries then lines[1..] else lines
  }

  /**
   * The history after one frame whose state is `current`: an equivalent frame
   * only counts one more frame on the newest line; otherwise a new line is added,
   * merged with the newest one when auto-correct applies, and the oldest line is
   * dropped when the history is over its size.
   */
  function Record(history: seq<Line>, current: State, autoCorrect: bool, maxEntries: int): seq<Line>
  {
    if history != [] && Last(history).State.EquivalentTo(current) then
      history[..|history| - 1] + [Last(history).(HoldingFrames := InputEntries.NextHoldingFrames(Last(history).HoldingFrames))]
    else
      var state := if history != [] && ShouldMerge(Last(history), current, autoCorrect)
                   then current.Combine(Last(history).State) else current;
      Shrink(history + [Line(state, 1)], maxEntries)
  }

  /** Whether the frame merged into a new line with the previous newest one. */
  predicate Merges(history: seq<Line>, current: State, autoCorrect: bool)
  {
    history != [] && !Last(history).State.EquivalentTo(current)
    && ShouldMerge(Last(history), current, autoCorrect)
  }

  /** An equivalent frame changes nothing but the newest line's counter, which goes
      up by one and stops at 99. */
  lemma RecordHeld(history: seq<Line>, current: State, autoCorrect: bool, maxEntries: int)
    requires history != [] && Last(history).State.EquivalentTo(current)
    ensures var r := Record(history, current, autoCorrect, maxEntries);
            && |r| == |history|
            && r[..|r| - 1] == history[..|history| - 1]
            && Last(r).State == Last(history).State
            && Last(r).HoldingFrames == InputEntries.NextHoldingFrames(Last(history).HoldingFrames)
  {
  }

  /** Any other frame appends one new line, seen once, and drops the oldest line
      when the history is over its size: the old lines keep their order and their
      counters. The new line holds the frame's state, combined with the previous
      newest line's state when auto-correct merges them. */
  lemma RecordAppends(history: seq<Line>, current: State, autoCorrect: bool, maxEntries: int)
    requires history == [] || !Last(history).State.EquivalentTo(current)
    ensures var r := Record(history, current, autoCorrect, maxEntries);
            var drop := if |history| + 1 > maxEntries then 1 else 0;
            && |r| == |history| + 1 - drop
            && (forall i | 0 <= i < |history| - drop :: r[i] == history[i + drop])
            && (r != [] ==> Last(r).HoldingFrames == 1)
            && (r != [] ==> Last(r).State == (if Merges(history, current, autoCorrect)
                                              then current.Combine(Last(history).State)
                                              else current))
  {
  }

  /** The newest line always shows this frame: the same direction, and exactly the
      buttons down now plus, after a merge, those the previous line had just pressed. */
  lemma RecordShowsCurrent(history: seq<Line>, current: State, autoCorrect: bool, maxEntries: int)
    requires Record(history, current, autoCorrect, maxEntries) != []
    ensures var r := Record(history, current, autoCorrect, maxEntries);
            && Last(r).State.Stick.Direction == current.Stick.Direction
            && forall i | 0 <= i < 10 ::
                 Last(r).State.ButtonList()[i].Active() <==>
                   current.ButtonList()[i].Active()
                   || (Merges(history, current, autoCorrect) && Last(history).State.ButtonList()[i].Pressed())
  {
    var r := Record(history, current, autoCorrect, maxEntries);
    if history != [] && Last(history).State.EquivalentTo(current) {
      assert Last(r).State == Last(history).State;
    } else {
      assert Last(r) == Last(history + [Last(r)]);
    }
  }

  /** A history within its size stays within it, and a history with room keeps at
      least its newest line. */
  lemma RecordBounded(history: seq<Line>, current: State, autoCorrect: bool, maxEntries: int)
    requires 0 <= |history| <= maxEntries
    ensures |Record(history, current, autoCorrect, maxEntries)| <= maxEntries
    ensures maxEntries >= 1 ==> Record(history, current, autoCorrect, maxEntries) != []
  {
  }

  /** No two neighbouring lines are equivalent. */
  predicate NoRepeats(lines: seq<Line>)
  {
    forall i | 0 <= i < |lines| - 1 :: !lines[i].State.EquivalentTo(lines[i + 1].State)
  }

  /** Without auto-correct, neighbouring lines always differ: equivalent frames
      collapse into one line. */
  lemma RecordNoRepeats(history: seq<Line>, current: State, maxEntries: int)
    requires NoRepeats(history)
    ensures NoRepeats(Record(history, current, false, maxEntries))
  {
    var r := Record(history, current, false, maxEntries);
    if history != [] && Last(history).State.EquivalentTo(current) {
      assert forall i | 0 <= i < |r| - 1 :: r[i] == history[i];
      assert Last(r).State == Last(history).State;
    } else {
      var full := history + [Line(current, 1)];
      assert NoRepeats(full) by {
        forall i | 0 <= i < |full| - 1
          ensures !full[i].State.EquivalentTo(full[i + 1].State)
        {
          if i == |history| - 1 {
            EquivalenceRelation(history[i].State, current, current);
          }
        }
      }
      assert r == full || r == full[1..];
    }
  }

  /** With auto-correct on, a merge can leave two equivalent neighbouring lines: a
      line with LP just pressed, then a frame releasing LP while the stick changes raw
      value but not direction, merges back into a copy of the first line. */
  lemma MergeMayRepeat()
    ensures var first := Initial.(Stick := Stick(B.Up, B.Up, false), LP := Button(ButtonStatus.Pressed));
            var current := Initial.(Stick := Stick(B.Up, B.Up | B.Down, false), LP := Button(Released));
            var r := Record([Line(first, 1)], current, true, 10);
            |r| == 2 && r[0].State.EquivalentTo(r[1].State)
  {
  }

  /** Whether a line is skipped when drawing: with `HideButtonRelease`, lines that
      show no new press, and direction-only lines when no direction source is on. */
  predicate Hidden(line: Line, hideButtonRelease: bool, sources: set<DirectionSource>)
  {
    hideButtonRelease
    && (line.State.IsNeutralOnly() || line.State.HasNoPressed()
        || (sources == {} && line.State.IsDirectionOnly()))
  }

  /** The lines drawn, newest first. */
  function Visible(lines: seq<Line>, hideButtonRelease: bool, sources: set<DirectionSource>): seq<Line>
  {
    if lines == [] then []
    else
      (if Hidden(Last(lines), hideButtonRelease, sources) then [] else [Last(lines)])
      + Visible(lines[..|lines| - 1], hideButtonRelease, sources)
  }

  /** Drawing the first `i + 1` lines is drawing line `i`, unless it is hidden,
      then the lines before it. */
  lemma VisibleStep(lines: seq<Line>, i: nat, hideButtonRelease: bool, sources: set<DirectionSource>)
    requires i < |lines|
    ensures Visible(lines[..i + 1], hideButtonRelease, sources)
            == (if Hidden(lines[i], hideButtonRelease, sources) then [] else [lines[i]])
               + Visible(lines[..i], hideButtonRelease, sources)
  {
    assert lines[..i + 1][..i] == lines[..i];
  }

  /** The lines drawn are exactly the lines not hidden. */
  lemma {:induction false} VisibleMembers(lines: seq<Line>, hideButtonRelease: bool, sources: set<DirectionSource>, x: Line)
    ensures x in Visible(lines, hideButtonRelease, sources) <==>
            x in lines && !Hidden(x, hideButtonRelease, sources)
    decreases |lines|
  {
    if lines != [] {
      var init := lines[..|lines| - 1];
      VisibleMembers(init, hideButtonRelease, sources, x);
      assert lines == init + [Last(lines)];
    }
  }

  /** Without `HideButtonRelease` every line is drawn, the newest first. */
  lemma {:induction false} VisibleAll(lines: seq<Line>, sources: set<DirectionSource>)
    ensures var v := Visible(lines, false, sources);
            |v| == |lines| && forall i | 0 <= i < |v| :: v[i] == lines[|lines| - 1 - i]
    decreases |lines|
  {
    if lines != [] {
      VisibleAll(lines[..|lines| - 1], sources);
    }
  }

  /** A neutral-only line shows no press, so the neutral test is subsumed. */
  lemma HiddenSimplified(line: Line, hideButtonRelease: bool, sources: set<DirectionSource>)
    ensures Hidden(line, hideButtonRelease, sources) <==>
            hideButtonRelease && (line.State.HasNoPressed() || (sources == {} && line.State.IsDirectionOnly()))
  {
    StateKinds(line.State);
  }

  function LineOf(e: InputEntries.InputEntry): Line
    reads e
  {
    Line(e.State, e.HoldingFrames)
  }

  function LinesOf(es: seq<InputEntries.InputEntry>): (r: seq<Line>)
    reads es
    ensures |r| == |es|
    ensures forall i | 0 <= i < |es| :: r[i] == LineOf(es[i])
  {
    if es == [] then [] else LinesOf(es[..|es| - 1]) + [LineOf(es[|es| - 1])]
  }

  /** `InputBuffer`: the game input it feeds and the lines recorded so far. */
  class InputBuffer {
    const gameInput: GameInput
    var entries: seq<InputEntries.InputEntry>

    /** Every line is its own object, with a counter in range. */
    predicate Valid()
      reads this, entries
    {
      && (forall i | 0 <= i < |entries| :: entries[i].Valid())
      && (forall i, j | 0 <= i < j < |entries| :: entries[i] != entries[j])
    }

    /** The history as values, oldest first. */
    function Contents(): seq<Line>
      reads this, entries
    {
      LinesOf(entries)
    }

    constructor ()
      ensures Valid() && Contents() == [] && fresh(gameInput) && gameInput.currentState == Initial
    {
      gameInput := new GameInput();
      entries := [];
    }

    /** `Update`: the game input takes the frame through the pad's own map (or the
        default one), and the history records the resulting state. */
    method Update(pad: set<PadButton>, identifier: string, config: Settings,
                  inputMap: InputMaps.InputMap, defaultMap: InputMaps.ButtonMap)
      requires Valid()
      modifies this, gameInput, entries
      ensures Valid()
      ensures gameInput.currentState == NextState(old(gameInput.currentState), pad, config.SOCD, config.EnabledDirections,
                                                  old(BindingsOf(inputMap.GetMappingOrDefault(identifier, defaultMap))))
      ensures Contents() == Record(old(Contents()), gameInput.currentState, config.AutoCorrectMultiple, config.MaxEntries)
    {
      var map_ := inputMap.GetMappingOrDefault(identifier, defaultMap);
      gameInput.Update(pad, config.SOCD, config.EnabledDirections, map_);
      RecordFrame(gameInput.currentState, config.AutoCorrectMultiple, config.MaxEntries);
    }

    /** The history part of `Update`: the frame's state is recorded. */
    method RecordFrame(current: State, autoCorrect: bool, maxEntries: int)
      requires Valid()
      modifies this`entries, entries
      ensures Valid()
      ensures Contents() == Record(old(Contents()), current, autoCorrect, maxEntries)
    {
      var controllerState := current;
      if |entries| > 0 {
        var last := entries[|entries| - 1];
        if last.State.EquivalentTo(controllerState) {
          HoldLast();
          return;
        }
        if autoCorrect && last.HoldingFrames == 1
           && last.State.HasPressed() && controllerState.HasPressed() {
          controllerState := controllerState.Combine(last.State);
        }
      }
      Add(controllerState, maxEntries);
    }

    /** The newest line is seen for one more frame. */
    method HoldLast()
      requires Valid() && entries != []
      modifies entries[|entries| - 1]
      ensures Valid()
      ensures Contents() == old(Contents())[..|entries| - 1]
                            + [Last(old(Contents())).(HoldingFrames := InputEntries.NextHoldingFrames(Last(old(Contents())).HoldingFrames))]
    {
      var last := entries[|entries| - 1];
      last.IncrementFrame();
      assert forall i | 0 <= i < |entries| - 1 :: entries[i] != last;
    }

    /** A new line for `state`, then `ShrinkBuffer`. */
    method Add(state: State, maxEntries: int)
      requires Valid()
      modifies this`entries
      ensures Valid()
      ensures Contents() == Shrink(old(Contents()) + [Line(state, 1)], maxEntries)
    {
      var entry := new InputEntries.InputEntry(state);
      entries := entries + [entry];
      ShrinkBuffer(maxEntries);
    }

    /** `Clear`: the history is emptied. */
    method Clear()
      modifies this`entries
      ensures Valid() && Contents() == []
    {
      entries := [];
    }

    /** `ShrinkBuffer`: drops the oldest line when there are more than `maxEntries`. */
    method ShrinkBuffer(maxEntries: int)
      requires Valid() && entries != []
      modifies this`entries
      ensures Valid()
      ensures entries == if |old(entries)| > maxEntries then old(entries)[1..] else old(entries)
      ensures Contents() == Shrink(old(Contents()), maxEntries)
    {
      if |entries| > maxEntries {
        entries := entries[1..];
      }
    }

    /** The line selection of `Draw`: walks the history from the newest line to the
        oldest, skipping the hidden ones. */
    method VisibleLines(config: Settings) returns (shown: seq<Line>)
      ensures shown == Visible(Contents(), config.HideButtonRelease, config.EnabledDirections)
    {
      ghost var lines := Contents();
      shown := [];
      var i := |entries| - 1;
      assert lines[..i + 1] == lines;
      while i >= 0
        invariant -1 <= i < |entries|
        invariant Visible(lines, config.HideButtonRelease, config.EnabledDirections)
                  == shown + Visible(lines[..i + 1], config.HideButtonRelease, config.EnabledDirections)
      {
        var line := LineOf(entries[i]);
        assert line == lines[i];
        ghost var rest := Visible(lines[..i], config.HideButtonRelease, config.EnabledDirections);
        VisibleStep(lines, i, config.HideButtonRelease, config.EnabledDirections);
        if !Hidden(line, config.HideButtonRelease, config.EnabledDirections) {
          assert shown + ([line] + rest) == (shown + [line]) + rest;
          shown := shown + [line];
        }
        i := i - 1;
      }
      assert lines[..0] == [];
    }
  }
}
