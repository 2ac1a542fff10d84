/**
 * Playing on the keyboard: twelve rebindable keys stand for pad controls.
 */
module KeyboardMaps {
  import opened Wrappers
  import P = XnaInput

  /** The pad controls a keyboard can produce: the four directions as both d-pad and
      left stick, and the eight face, shoulder and trigger buttons. */
  const DirectionFlags: set<P.PadButton> := {
    P.DPadUp, P.DPadDown, P.DPadLeft, P.DPadRight,
    P.LeftThumbstickUp, P.LeftThumbstickDown, P.LeftThumbstickLeft, P.LeftThumbstickRight }

  const ButtonFlags: set<P.PadButton> := {
    P.PadButton.X, P.PadButton.Y, P.RightShoulder, P.LeftShoulder,
    P.PadButton.A, P.PadButton.B, P.RightTrigger, P.LeftTrigger }

  const KeyboardFlags: set<P.PadButton> := DirectionFlags + ButtonFlags

  /** `KeyboardToPadMap`: the key bound to each pad control. */
  class KeyboardToPadMap {
    var Up: P.Key
    var Down: P.Key
    var Left: P.Key
    var Right: P.Key
    var X: P.Key
    var Y: P.Key
    var RightShoulder: P.Key
    var LeftShoulder: P.Key
    var A: P.Key
    var B: P.Key
    var RightTrigger: P.Key
    var LeftTrigger: P.Key

    /** The declared initial bindings: the arrow keys, then A S D F and Z X C V. */
    predicate HasDefaults()
      reads this
    {
      && Up == P.Key.Up && Down == P.Key.Down && Left == P.Key.Left && Right == P.Key.Right
      && X == P.KeyA && Y == P.KeyS && RightShoulder == P.KeyD && LeftShoulder == P.KeyF
      && A == P.KeyZ && B == P.KeyX && RightTrigger == P.KeyC && LeftTrigger == P.KeyV
    }

    constructor ()
      ensures HasDefaults()
    {
      Up, Down, Left, Right := P.Key.Up, P.Key.Down, P.Key.Left, P.Key.Right;
      X, Y, RightShoulder, LeftShoulder := P.KeyA, P.KeyS, P.KeyD, P.KeyF;
      A, B, RightTrigger, LeftTrigger := P.KeyZ, P.KeyX, P.KeyC, P.KeyV;
    }

    /** The key whose press produces pad control `f`, for the sixteen controls a
        keyboard drives. */
    function KeyFor(f: P.PadButton): (k: Option<P.Key>)
      reads this
      ensures k.Some? <==> f in KeyboardFlags
    {
      match f
      case DPadUp | LeftThumbstickUp => Some(Up)
      case DPadDown | LeftThumbstickDown => Some(Down)
      case DPadLeft | LeftThumbstickLeft => Some(Left)
      case DPadRight | LeftThumbstickRight => Some(Right)
      case X => Some(X)
      case Y => Some(Y)
      case RightShoulder => Some(RightShoulder)
      case LeftShoulder => Some(LeftShoulder)
      case A => Some(A)
      case B => Some(B)
      case RightTrigger => Some(RightTrigger)
      case LeftTrigger => Some(LeftTrigger)
      case _ => None
    }

    /** `GetButtons`: the pad controls whose keys are among the keys down. */
    function GetButtons(keys: set<P.Key>): P.Buttons
      reads this
    {
      DirectionButtons(keys) + FaceButtons(keys)
    }

    /** The four direction keys' part of `GetButtons`. */
    function DirectionButtons(keys: set<P.Key>): P.Buttons
      reads this
    {
      (if Up in keys then {P.DPadUp, P.LeftThumbstickUp} else {})
      + (if Down in keys then {P.DPadDown, P.LeftThumbstickDown} else {})
      + (if Left in keys then {P.DPadLeft, P.LeftThumbstickLeft} else {})
      + (if Right in keys then {P.DPadRight, P.LeftThumbstickRight} else {})
    }

    /** The eight button keys' part of `GetButtons`. */
    function FaceButtons(keys: set<P.Key>): P.Buttons
      reads this
    {
      (if X in keys then {P.PadButton.X} else {})
      + (if Y in keys then {P.PadButton.Y} else {})
      + (if RightShoulder in keys then {P.RightShoulder} else {})
      + (if LeftShoulder in keys then {P.LeftShoulder} else {})
      + (if A in keys then {P.PadButton.A} else {})
      + (if B in keys then {P.PadButton.B} else {})
      + (if RightTrigger in keys then {P.RightTrigger} else {})
      + (if LeftTrigger in keys then {P.LeftTrigger} else {})
    }

    /** `AnyPress`: one of the twelve bound keys is down. */
    predicate AnyPress(keys: set<P.Key>)
      reads this
    {
      Up in keys || Down in keys || Left in keys || Right in keys
      || X in keys || Y in keys || RightShoulder in keys || LeftShoulder in keys
      || A in keys || B in keys || RightTrigger in keys || LeftTrigger in keys
    }

    /**
     * `DetectUpdate`: with exactly one key pressed, that key is bound to every
     * control named in `button` and the answer is true, even when none is named;
     * otherwise nothing changes. `Right` is learnt from the d-pad or the right
     * stick's right flag, not from the left stick's.
     */
    method DetectUpdate(button: P.Buttons, pressedKeys: seq<P.Key>) returns (updated: bool)
      modifies this
      ensures updated <==> |pressedKeys| == 1
      ensures !updated ==> unchanged(this)
      ensures updated ==> LearntDirections(button, pressedKeys[0], old(Up), old(Down), old(Left), old(Right))
      ensures updated ==> LearntFace(button, pressedKeys[0], old(X), old(Y), old(A), old(B))
      ensures updated ==> LearntShoulders(button, pressedKeys[0], old(RightShoulder), old(LeftShoulder),
                                          old(RightTrigger), old(LeftTrigger))
    {
      if |pressedKeys| != 1 {
        return false;
      }
      var pressed := pressedKeys[0];
      LearnDirections(button, pressed);
      LearnFace(button, pressed);
      LearnShoulders(button, pressed);
      return true;
    }

    /** The direction keys after learning `k` for `button`, given the keys before. */
    predicate LearntDirections(button: P.Buttons, k: P.Key, up: P.Key, down: P.Key, left: P.Key, right: P.Key)
      reads this
    {
      && Up == (if P.DPadUp in button || P.LeftThumbstickUp in button then k else up)
      && Down == (if P.DPadDown in button || P.LeftThumbstickDown in button then k else down)
      && Left == (if P.DPadLeft in button || P.LeftThumbstickLeft in button then k else left)
      && Right == (if P.DPadRight in button || P.RightThumbstickRight in button then k else right)
    }

    /** The face-button keys after learning `k` for `button`, given the keys before. */
    predicate LearntFace(button: P.Buttons, k: P.Key, x: P.Key, y: P.Key, a: P.Key, b: P.Key)
      reads this
    {
      && X == (if P.PadButton.X in button then k else x)
      && Y == (if P.PadButton.Y in button then k else y)
      && A == (if P.PadButton.A in button then k else a)
      && B == (if P.PadButton.B in button then k else b)
    }

    /** The shoulder and trigger keys after learning `k` for `button`, given the keys
        before. */
    predicate LearntShoulders(button: P.Buttons, k: P.Key, rightShoulder: P.Key, leftShoulder: P.Key,
                              rightTrigger: P.Key, leftTrigger: P.Key)
      reads this
    {
      && RightShoulder == (if P.RightShoulder in button then k else rightShoulder)
      && LeftShoulder == (if P.LeftShoulder in button then k else leftShoulder)
      && RightTrigger == (if P.RightTrigger in button then k else rightTrigger)
      && LeftTrigger == (if P.LeftTrigger in button then k else leftTrigger)
    }

    method LearnDirections(button: P.Buttons, pressed: P.Key)
      modifies this`Up, this`Down, this`Left, this`Right
      ensures LearntDirections(button, pressed, old(Up), old(Down), old(Left), old(Right))
    {
      Up := if P.DPadUp in button || P.LeftThumbstickUp in button then pressed else Up;
      Down := if P.DPadDown in button || P.LeftThumbstickDown in button then pressed else Down;
      Left := if P.DPadLeft in button || P.LeftThumbstickLeft in button then pressed else Left;
      Right := if P.DPadRight in button || P.RightThumbstickRight in button then pressed else Right;
    }

    method LearnFace(button: P.Buttons, pressed: P.Key)
      modifies this`X, this`Y, this`A, this`B
      ensures LearntFace(button, pressed, old(X), old(Y), old(A), old(B))
    {
      X := if P.PadButton.X in button then pressed else X;
      Y := if P.PadButton.Y in button then pressed else Y;
      A := if P.PadButton.A in button then pressed else A;
      B := if P.PadButton.B in button then pressed else B;
    }

    method LearnShoulders(button: P.Buttons, pressed: P.Key)
      modifies this`RightShoulder, this`LeftShoulder, this`RightTrigger, this`LeftTrigger
      ensures LearntShoulders(button, pressed, old(RightShoulder), old(LeftShoulder), old(RightTrigger), old(LeftTrigger))
    {
      RightShoulder := if P.RightShoulder in button then pressed else RightShoulder;
      LeftShoulder := if P.LeftShoulder in button then pressed else LeftShoulder;
      RightTrigger := if P.RightTrigger in button then pressed else RightTrigger;
      LeftTrigger := if P.LeftTrigger in button then pressed else LeftTrigger;
    }

    /** `Reset`: back to the declared bindings. */
    method Reset()
      modifies this
      ensures HasDefaults()
    {
      ResetDirections();
      ResetButtons();
    }

    method ResetDirections()
      modifies this`Up, this`Down, this`Left, this`Right
      ensures Up == P.Key.Up && Down == P.Key.Down && Left == P.Key.Left && Right == P.Key.Right
    {
      Up, Down, Left, Right := P.Key.Up, P.Key.Down, P.Key.Left, P.Key.Right;
    }

    method ResetButtons()
      modifies this`X, this`Y, this`RightShoulder, this`LeftShoulder,
               this`A, this`B, this`RightTrigger, this`LeftTrigger
      ensures X == P.KeyA && Y == P.KeyS && RightShoulder == P.KeyD && LeftShoulder == P.KeyF
      ensures A == P.KeyZ && B == P.KeyX && RightTrigger == P.KeyC && LeftTrigger == P.KeyV
    {
      X, Y, RightShoulder, LeftShoulder := P.KeyA, P.KeyS, P.KeyD, P.KeyF;
      A, B, RightTrigger, LeftTrigger := P.KeyZ, P.KeyX, P.KeyC, P.KeyV;
    }
  }

  /** The keyboard reports a pad control exactly when the key bound to it is down:
      both the d-pad and the left stick for a direction key, its own button for a
      face key, and never a control a keyboard does not drive. */
  lemma GetButtonsMeaning(m: KeyboardToPadMap, keys: set<P.Key>, f: P.PadButton)
    ensures f in m.GetButtons(keys) <==> m.KeyFor(f).Some? && m.KeyFor(f).value in keys
  {
    DirectionButtonsMeaning(m, keys, f);
    FaceButtonsMeaning(m, keys, f);
  }

  lemma DirectionButtonsMeaning(m: KeyboardToPadMap, keys: set<P.Key>, f: P.PadButton)
    ensures f in m.DirectionButtons(keys) <==> f in DirectionFlags && m.KeyFor(f).value in keys
  {
    if f in DirectionFlags {
      DirectionButtonsOwnKey(m, keys, f);
    } else {
      DirectionButtonsOnlyDirections(m, keys, f);
    }
  }

  lemma DirectionButtonsOwnKey(m: KeyboardToPadMap, keys: set<P.Key>, f: P.PadButton)
    requires f in DirectionFlags
    ensures f in m.DirectionButtons(keys) <==> m.KeyFor(f).value in keys
  {
    match f
    case DPadUp | DPadDown | DPadLeft | DPadRight =>
    case LeftThumbstickUp | LeftThumbstickDown | LeftThumbstickLeft | LeftThumbstickRight =>
  }

  lemma DirectionButtonsOnlyDirections(m: KeyboardToPadMap, keys: set<P.Key>, f: P.PadButton)
    requires f !in DirectionFlags
    ensures f !in m.DirectionButtons(keys)
  {
  }

  lemma FaceButtonsMeaning(m: KeyboardToPadMap, keys: set<P.Key>, f: P.PadButton)
    ensures f in m.FaceButtons(keys) <==> f in ButtonFlags && m.KeyFor(f).value in keys
  {
    if f in ButtonFlags {
      FaceButtonsOwnKey(m, keys, f);
    } else {
      FaceButtonsOnlyButtons(m, keys, f);
    }
  }

  lemma FaceButtonsOwnKey(m: KeyboardToPadMap, keys: set<P.Key>, f: P.PadButton)
    requires f in ButtonFlags
    ensures f in m.FaceButtons(keys) <==> m.KeyFor(f).value in keys
  {
    match f
    case X | Y | RightShoulder | LeftShoulder =>
    case A | B | RightTrigger | LeftTrigger =>
  }

  lemma FaceButtonsOnlyButtons(m: KeyboardToPadMap, keys: set<P.Key>, f: P.PadButton)
    requires f !in ButtonFlags
    ensures f !in m.FaceButtons(keys)
  {
  }

  /** A bound key is down exactly when the keyboard reports some pad control; with
      no bound key down it reports none. */
  lemma AnyPressIffButtons(m: KeyboardToPadMap, keys: set<P.Key>)
    ensures m.AnyPress(keys) <==> m.GetButtons(keys) != {}
  {
    if m.AnyPress(keys) {
      if m.Up in keys { assert P.DPadUp in m.GetButtons(keys); }
      else if m.Down in keys { assert P.DPadDown in m.GetButtons(keys); }
      else if m.Left in keys { assert P.DPadLeft in m.GetButtons(keys); }
      else if m.Right in keys { assert P.DPadRight in m.GetButtons(keys); }
    }
  }

  /** After learning `k` for `button`, pressing `k` alone reports every keyboard
      control `button` named, the left stick's right flag excepted. */
  lemma LearntKeyProduces(m: KeyboardToPadMap, button: P.Buttons, k: P.Key,
                          up: P.Key, down: P.Key, left: P.Key, right: P.Key,
                          x: P.Key, y: P.Key, rightShoulder: P.Key, leftShoulder: P.Key,
                          a: P.Key, b: P.Key, rightTrigger: P.Key, leftTrigger: P.Key, f: P.PadButton)
    requires m.LearntDirections(button, k, up, down, left, right)
    requires m.LearntFace(button, k, x, y, a, b)
    requires m.LearntShoulders(button, k, rightShoulder, leftShoulder, rightTrigger, leftTrigger)
    requires f in button && f in KeyboardFlags && f != P.LeftThumbstickRight
    ensures f in m.GetButtons({k})
  {
    GetButtonsMeaning(m, {k}, f);
  }

  /** Asking to learn the left stick's right flag alone changes no binding, though
      `DetectUpdate` still answers true. */
  lemma LeftStickRightTeachesNothing(m: KeyboardToPadMap, k: P.Key,
                                     up: P.Key, down: P.Key, left: P.Key, right: P.Key,
                                     x: P.Key, y: P.Key, rightShoulder: P.Key, leftShoulder: P.Key,
                                     a: P.Key, b: P.Key, rightTrigger: P.Key, leftTrigger: P.Key)
    requires m.LearntDirections({P.LeftThumbstickRight}, k, up, down, left, right)
    requires m.LearntFace({P.LeftThumbstickRight}, k, x, y, a, b)
    requires m.LearntShoulders({P.LeftThumbstickRight}, k, rightShoulder, leftShoulder, rightTrigger, leftTrigger)
    ensures m.Up == up && m.Down == down && m.Left == left && m.Right == right
    ensures m.X == x && m.Y == y && m.RightShoulder == rightShoulder && m.LeftShoulder == leftShoulder
    ensures m.A == a && m.B == b && m.RightTrigger == rightTrigger && m.LeftTrigger == leftTrigger
  {
  }

  /** With the default bindings, the arrow keys drive both the d-pad and the left
      stick, and the two rows of letters the eight buttons. */
  lemma DefaultLayout(m: KeyboardToPadMap)
    requires m.HasDefaults()
    ensures m.GetButtons({P.Key.Right}) == {P.DPadRight, P.LeftThumbstickRight}
    ensures m.GetButtons({P.KeyA, P.KeyZ}) == {P.PadButton.X, P.PadButton.A}
    ensures m.GetButtons({P.Other(0)}) == {}
  {
    DefaultRightArrow(m);
    DefaultLetters(m);
    DefaultUnboundKey(m);
  }

  lemma DefaultRightArrow(m: KeyboardToPadMap)
    requires m.HasDefaults()
    ensures m.GetButtons({P.Key.Right}) == {P.DPadRight, P.LeftThumbstickRight}
  {
  }

  lemma DefaultLetters(m: KeyboardToPadMap)
    requires m.HasDefaults()
    ensures m.GetButtons({P.KeyA, P.KeyZ}) == {P.PadButton.X, P.PadButton.A}
  {
    assert m.DirectionButtons({P.KeyA, P.KeyZ}) == {};
  }

  lemma DefaultUnboundKey(m: KeyboardToPadMap)
    requires m.HasDefaults()
    ensures m.GetButtons({P.Other(0)}) == {}
  {
  }
}
