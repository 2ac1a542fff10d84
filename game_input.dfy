/**
 * The logical controller state of one frame: ten buttons, each in one of
 * four statuses, and the stick; and how the next frame's state follows from
 * the pad snapshot, the direction sources, the SOCD policy and the bindings.
 */
module GameInputs {
  import opened XnaInput
  import opened Socd
  import B = Buttons
  import InputMaps

  datatype ButtonStatus = Unpressed | Pressed | Holding | Released

  /** `GameInput.Button`: one logical button. */
  datatype Button = Button(Status: ButtonStatus)
  {
    /** Down on this frame and not on the one before. */
    predicate Pressed()
    {
      Status == ButtonStatus.Pressed
    }

    /** Down on this frame. */
    predicate Active()
    {
      Status == ButtonStatus.Pressed || Status == ButtonStatus.Holding
    }

    /** Merging two frames' views of a button: a press on either side wins;
        otherwise the left side is kept. */
    function Combine(other: Button): (r: Button)
      ensures r.Pressed() <==> Pressed() || other.Pressed()
      ensures r.Active() <==> Active() || other.Pressed()
      ensures !other.Pressed() ==> r == this
    {
      if other.Pressed() || Pressed() then Button(ButtonStatus.Pressed) else this
    }
  }

  const Idle: Button := Button(Unpressed)

  /** Which status flags each status carries; Released is never Active. */
  lemma StatusFlags(b: Button)
    ensures b.Pressed() <==> b.Status == ButtonStatus.Pressed
    ensures b.Active() ==> b.Status != Released && b.Status != Unpressed
    ensures b.Pressed() ==> b.Active()
  {
  }

  /** Combine is not symmetric: it keeps the left side unless a side is Pressed. */
  lemma CombineNotSymmetric()
    ensures Button(Holding).Combine(Button(Released)) == Button(Holding)
    ensures Button(Released).Combine(Button(Holding)) == Button(Released)
  {
  }

  /** `GameInput.State`: the logical state of one frame. */
  datatype State = State(
    Stick: Stick,
    LP: Button, MP: Button, HP: Button, PP: Button,
    LK: Button, MK: Button, HK: Button, KK: Button,
    LS: Button, RS: Button)
  {
    /** The ten buttons in `B.AllButtons` order. */
    function ButtonList(): (bs: seq<Button>)
      ensures |bs| == |B.AllButtons|
    {
      [LP, MP, HP, PP, LK, MK, HK, KK, LS, RS]
    }

    /** Same cleaned direction and the same buttons down; the raw direction, the
        holding flag and pressed-versus-holding do not matter. */
    predicate EquivalentTo(other: State)
    {
      Stick.Direction == other.Stick.Direction
      && LP.Active() == other.LP.Active()
      && MP.Active() == other.MP.Active()
      && HP.Active() == other.HP.Active()
      && PP.Active() == other.PP.Active()
      && LK.Active() == other.LK.Active()
      && MK.Active() == other.MK.Active()
      && HK.Active() == other.HK.Active()
      && KK.Active() == other.KK.Active()
      && LS.Active() == other.LS.Active()
      && RS.Active() == other.RS.Active()
    }

    /** Stick neutral and no button down. */
    predicate IsNeutralOnly()
    {
      Stick.Direction == B.Neutral && NoneActive()
    }

    /** Stick off neutral and no button down. */
    predicate IsDirectionOnly()
    {
      Stick.Direction != B.Neutral && NoneActive()
    }

    predicate NoneActive()
    {
      !LP.Active() && !MP.Active() && !HP.Active() && !PP.Active()
      && !LK.Active() && !MK.Active() && !HK.Active() && !KK.Active()
      && !LS.Active() && !RS.Active()
    }

    /** Nothing new on this frame: the stick is neutral or held, no attack button
        was just pressed, and neither stick click is down. */
    predicate HasNoPressed()
    {
      (Stick.Direction == B.Neutral || Stick.Holding)
      && !LP.Pressed() && !MP.Pressed() && !HP.Pressed() && !PP.Pressed()
      && !LK.Pressed() && !MK.Pressed() && !HK.Pressed() && !KK.Pressed()
      && !LS.Active() && !RS.Active()
    }

    predicate HasPressed()
    {
      !HasNoPressed()
    }

    /** `State.Combine`: every button merged with `other`'s; the stick is kept. */
    function Combine(other: State): (r: State)
      ensures r.Stick == Stick
      ensures forall i | 0 <= i < |B.AllButtons| ::
                r.ButtonList()[i] == ButtonList()[i].Combine(other.ButtonList()[i])
    {
      this.(LP := LP.Combine(other.LP), MP := MP.Combine(other.MP),
            HP := HP.Combine(other.HP), PP := PP.Combine(other.PP),
            LK := LK.Combine(other.LK), MK := MK.Combine(other.MK),
            HK := HK.Combine(other.HK), KK := KK.Combine(other.KK),
            LS := LS.Combine(other.LS), RS := RS.Combine(other.RS))
    }

    /** The flags of the buttons that are down. */
    function GetActiveButtons(): (r: B.ButtonName)
      ensures (r & B.LP != 0 <==> LP.Active()) && (r & B.MP != 0 <==> MP.Active())
      ensures (r & B.HP != 0 <==> HP.Active()) && (r & B.PP != 0 <==> PP.Active())
      ensures (r & B.LK != 0 <==> LK.Active()) && (r & B.MK != 0 <==> MK.Active())
      ensures (r & B.HK != 0 <==> HK.Active()) && (r & B.KK != 0 <==> KK.Active())
      ensures (r & B.LS != 0 <==> LS.Active()) && (r & B.RS != 0 <==> RS.Active())
      ensures r & !(B.LP | B.MP | B.HP | B.PP | B.LK | B.MK | B.HK | B.KK | B.LS | B.RS) == 0
    {
      (if LP.Active() then B.LP else 0)
      | (if MP.Active() then B.MP else 0)
      | (if HP.Active() then B.HP else 0)
      | (if PP.Active() then B.PP else 0)
      | (if LK.Active() then B.LK else 0)
      | (if MK.Active() then B.MK else 0)
      | (if HK.Active() then B.HK else 0)
      | (if KK.Active() then B.KK else 0)
      | (if LS.Active() then B.LS else 0)
      | (if RS.Active() then B.RS else 0)
    }
  }

  /** The state before the first frame: stick neutral, every button up. */
  const Initial: State := State(Stick(B.Neutral, B.Neutral, false),
                                Idle, Idle, Idle, Idle, Idle, Idle, Idle, Idle, Idle, Idle)

  /** Two states are equivalent exactly when their cleaned directions agree and the
      same buttons are down. */
  lemma EquivalentIffSameView(s: State, t: State)
    ensures s.EquivalentTo(t) <==>
            s.Stick.Direction == t.Stick.Direction && s.GetActiveButtons() == t.GetActiveButtons()
  {
    var a, b := s.GetActiveButtons(), t.GetActiveButtons();
    if s.EquivalentTo(t) {
      assert a == b;
    }
  }

  /** Equivalence of states is an equivalence relation. */
  lemma EquivalenceRelation(s: State, t: State, u: State)
    ensures s.EquivalentTo(s)
    ensures s.EquivalentTo(t) ==> t.EquivalentTo(s)
    ensures s.EquivalentTo(t) && t.EquivalentTo(u) ==> s.EquivalentTo(u)
  {
  }

  /** A state is exactly one of: neutral-only, direction-only, or has a button down. */
  lemma StateKinds(s: State)
    ensures s.IsNeutralOnly() ==> !s.IsDirectionOnly()
    ensures s.IsNeutralOnly() || s.IsDirectionOnly() <==> s.GetActiveButtons() == 0
    ensures s.IsNeutralOnly() ==> s.HasNoPressed()
  {
  }

  // ---------------------------------------------------------------------
  // Next state

  /** `UpdateButton`: a button bound to no control is forced up; otherwise the
      status follows the four-status machine. */
  function UpdateButton(pad: set<PadButton>, code: XnaInput.Buttons, button: Button): (r: Button)
    ensures code == {} ==> r == Idle
    ensures code != {} ==> var down := IsButtonDown(pad, code);
              && (r.Active() <==> down)
              && (r.Pressed() <==> down && !button.Active())
              && (r.Status == Released <==> !down && button.Active())
  {
    if code == {} then Idle
    else
      var down := IsButtonDown(pad, code);
      match (button.Status, down)
      case (Unpressed, true) => Button(ButtonStatus.Pressed)
      case (Unpressed, false) => button
      case (Pressed, true) => Button(Holding)
      case (Pressed, false) => Button(Released)
      case (Released, true) => Button(ButtonStatus.Pressed)
      case (Released, false) => Button(Unpressed)
      case (Holding, true) => button
      case (Holding, false) => Button(Released)
  }

  /** The status machine as a table: down moves Unpressed and Released to Pressed
      and Pressed to Holding; up moves Pressed and Holding to Released and
      Released to Unpressed. */
  lemma StatusTable(pad: set<PadButton>, code: XnaInput.Buttons)
    requires code != {}
    ensures IsButtonDown(pad, code) ==>
              && UpdateButton(pad, code, Button(Unpressed)) == Button(ButtonStatus.Pressed)
              && UpdateButton(pad, code, Button(ButtonStatus.Pressed)) == Button(Holding)
              && UpdateButton(pad, code, Button(Released)) == Button(ButtonStatus.Pressed)
              && UpdateButton(pad, code, Button(Holding)) == Button(Holding)
    ensures !IsButtonDown(pad, code) ==>
              && UpdateButton(pad, code, Button(Unpressed)) == Button(Unpressed)
              && UpdateButton(pad, code, Button(ButtonStatus.Pressed)) == Button(Released)
              && UpdateButton(pad, code, Button(Released)) == Button(Unpressed)
              && UpdateButton(pad, code, Button(Holding)) == Button(Released)
  {
  }

  /** Where the stick direction is read from. */
  datatype DirectionSource = DPad | LeftAnalog | RightAnalog

  /** Whether a direction is down on any enabled source. */
  predicate SourceDown(pad: set<PadButton>, sources: set<DirectionSource>,
                       dpad: PadButton, left: PadButton, right: PadButton)
  {
    (DPad in sources && IsButtonDown(pad, {dpad}))
    || (LeftAnalog in sources && IsButtonDown(pad, {left}))
    || (RightAnalog in sources && IsButtonDown(pad, {right}))
  }

  /** The raw direction: a bit for each direction down on an enabled source. */
  function RawDirection(pad: set<PadButton>, sources: set<DirectionSource>): (d: B.Direction)
    ensures B.HasFlag(d, B.Up) <==> SourceDown(pad, sources, DPadUp, LeftThumbstickUp, RightThumbstickUp)
    ensures B.HasFlag(d, B.Down) <==> SourceDown(pad, sources, DPadDown, LeftThumbstickDown, RightThumbstickDown)
    ensures B.HasFlag(d, B.Backward) <==> SourceDown(pad, sources, DPadLeft, LeftThumbstickLeft, RightThumbstickLeft)
    ensures B.HasFlag(d, B.Forward) <==> SourceDown(pad, sources, DPadRight, LeftThumbstickRight, RightThumbstickRight)
    ensures d & !(B.Up | B.Down | B.Forward | B.Backward) == 0
  {
    (if SourceDown(pad, sources, DPadUp, LeftThumbstickUp, RightThumbstickUp) then B.Up else 0)
    | (if SourceDown(pad, sources, DPadDown, LeftThumbstickDown, RightThumbstickDown) then B.Down else 0)
    | (if SourceDown(pad, sources, DPadLeft, LeftThumbstickLeft, RightThumbstickLeft) then B.Backward else 0)
    | (if SourceDown(pad, sources, DPadRight, LeftThumbstickRight, RightThumbstickRight) then B.Forward else 0)
  }

  /** The stick after `UpdateDirections`: with no sources it is reset; otherwise the
      raw direction is read, `Holding` says it repeats a non-neutral previous raw,
      and the cleaned direction is resolved against the previous frame's stick. */
  function NextStick(previous: Stick, pad: set<PadButton>, mode: SOCDMode,
                     sources: set<DirectionSource>): Stick
  {
    if sources == {} then Stick(B.Neutral, B.Neutral, false)
    else
      var raw := RawDirection(pad, sources);
      var holding := previous.Raw == raw && raw != B.Neutral;
      Stick(Clean(mode, raw, previous.(Holding := holding)), raw, holding)
  }

  /** What the next stick means: the raw direction comes from the enabled sources,
      `Holding` is set exactly on a repeated non-neutral raw, and the cleaned
      direction never holds an opposing pair under Neutral and UpPriority, and is
      the raw direction under Bypass. */
  lemma NextStickMeaning(previous: Stick, pad: set<PadButton>, mode: SOCDMode,
                         sources: set<DirectionSource>)
    ensures var s := NextStick(previous, pad, mode, sources);
            && (sources == {} ==> s == Stick(B.Neutral, B.Neutral, false))
            && s.Raw == (if sources == {} then B.Neutral else RawDirection(pad, sources))
            && (s.Holding <==> s.Raw == previous.Raw && s.Raw != B.Neutral && sources != {})
            && (mode == Bypass ==> s.Direction == s.Raw)
            && (mode == Socd.Neutral || mode == UpPriority ==> !HasOpposingDirections(s.Direction))
            && (!HasOpposingDirections(s.Raw) ==> s.Direction == s.Raw)
  {
    var s := NextStick(previous, pad, mode, sources);
    if sources != {} {
      var last := previous.(Holding := s.Holding);
      if mode == Socd.Neutral {
        NeutralClearsConflicts(s.Raw, last);
      } else if mode == UpPriority {
        UpPriorityKeepsUp(s.Raw, last);
      }
      if !HasOpposingDirections(s.Raw) {
        NoConflictUnchanged(mode, s.Raw, last);
      }
    }
  }

  /** The pad controls bound to the ten buttons, in `B.AllButtons` order. */
  datatype Bindings = Bindings(attack: seq<XnaInput.Buttons>, LS: XnaInput.Buttons, RS: XnaInput.Buttons)
  {
    function All(): seq<XnaInput.Buttons> { attack + [LS, RS] }
  }

  /** The state after `Update`: the stick as `NextStick` has it, and each button moved
      by its own binding. */
  function NextState(previous: State, pad: set<PadButton>, mode: SOCDMode,
                     sources: set<DirectionSource>, bindings: Bindings): (r: State)
    requires |bindings.attack| == 8
    ensures r.Stick == NextStick(previous.Stick, pad, mode, sources)
    ensures forall i | 0 <= i < |B.AllButtons| ::
              r.ButtonList()[i] == UpdateButton(pad, bindings.All()[i], previous.ButtonList()[i])
  {
    var c := bindings.attack;
    State(NextStick(previous.Stick, pad, mode, sources),
          UpdateButton(pad, c[0], previous.LP), UpdateButton(pad, c[1], previous.MP),
          UpdateButton(pad, c[2], previous.HP), UpdateButton(pad, c[3], previous.PP),
          UpdateButton(pad, c[4], previous.LK), UpdateButton(pad, c[5], previous.MK),
          UpdateButton(pad, c[6], previous.HK), UpdateButton(pad, c[7], previous.KK),
          UpdateButton(pad, bindings.LS, previous.LS), UpdateButton(pad, bindings.RS, previous.RS))
  }

  /** After an update, exactly the buttons whose control is down (and bound) are
      active: the displayed view depends only on this frame's snapshot. */
  lemma ActiveAfterUpdate(previous: State, pad: set<PadButton>, mode: SOCDMode,
                          sources: set<DirectionSource>, bindings: Bindings)
    requires |bindings.attack| == 8
    ensures var r := NextState(previous, pad, mode, sources, bindings);
            forall i | 0 <= i < |B.AllButtons| ::
              r.ButtonList()[i].Active() <==> bindings.All()[i] != {} && IsButtonDown(pad, bindings.All()[i])
  {
  }

  /** The bindings a `ButtonMap` holds. */
  function BindingsOf(map_: InputMaps.ButtonMap): (b: Bindings)
    reads map_
    ensures |b.attack| == 8
  {
    Bindings(map_.Codes(), map_.LS, map_.RS)
  }

  /** `GameInput`: the current logical state, updated once per frame. */
  class GameInput {
    var currentState: State

    constructor ()
      ensures currentState == Initial
    {
      currentState := Initial;
    }

    /** `UpdateDirections`: only the stick changes. */
    method UpdateDirections(pad: set<PadButton>, socd: SOCDMode, sources: set<DirectionSource>)
      modifies this
      ensures currentState == old(currentState).(Stick := NextStick(old(currentState).Stick, pad, socd, sources))
    {
      if sources == {} {
        currentState := currentState.(Stick := Stick(B.Neutral, B.Neutral, false));
        return;
      }
      var direction: B.Direction := B.Neutral;
      if SourceDown(pad, sources, DPadUp, LeftThumbstickUp, RightThumbstickUp) {
        direction := direction | B.Up;
      }
      if SourceDown(pad, sources, DPadDown, LeftThumbstickDown, RightThumbstickDown) {
        direction := direction | B.Down;
      }
      if SourceDown(pad, sources, DPadLeft, LeftThumbstickLeft, RightThumbstickLeft) {
        direction := direction | B.Backward;
      }
      if SourceDown(pad, sources, DPadRight, LeftThumbstickRight, RightThumbstickRight) {
        direction := direction | B.Forward;
      }
      var stick := currentState.Stick;
      stick := stick.(Holding := stick.Raw == direction && direction != B.Neutral);
      stick := stick.(Direction := Clean(socd, direction, stick));
      stick := stick.(Raw := direction);
      currentState := currentState.(Stick := stick);
    }

    /** `Update`: the stick first, then each of the ten buttons through its binding
        in `map_`, the map chosen for the pad. */
    method Update(pad: set<PadButton>, socd: SOCDMode, sources: set<DirectionSource>,
                  map_: InputMaps.ButtonMap)
      modifies this
      ensures currentState == NextState(old(currentState), pad, socd, sources, old(BindingsOf(map_)))
    {
      UpdateDirections(pad, socd, sources);
      var s := currentState;
      currentState := s.(
        LP := UpdateButton(pad, map_.LP, s.LP), MP := UpdateButton(pad, map_.MP, s.MP),
        HP := UpdateButton(pad, map_.HP, s.HP), PP := UpdateButton(pad, map_.PP, s.PP),
        LK := UpdateButton(pad, map_.LK, s.LK), MK := UpdateButton(pad, map_.MK, s.MK),
        HK := UpdateButton(pad, map_.HK, s.HK), KK := UpdateButton(pad, map_.KK, s.KK),
        LS := UpdateButton(pad, map_.LS, s.LS), RS := UpdateButton(pad, map_.RS, s.RS));
    }
  }
}
