/**
 * The pieces of MonoGame's input API the repository consumes. They are not
 * part of the repository; only their shape matters here.
 */
module XnaInput {

  /** One flag of MonoGame's `Buttons` enumeration (a gamepad control). */
  datatype PadButton =
    | DPadUp | DPadDown | DPadLeft | DPadRight
    | Start | Back | LeftStick | RightStick
    | LeftShoulder | RightShoulder | BigButton
    | A | B | X | Y
    | LeftTrigger | RightTrigger
    | LeftThumbstickUp | LeftThumbstickDown | LeftThumbstickLeft | LeftThumbstickRight
    | RightThumbstickUp | RightThumbstickDown | RightThumbstickLeft | RightThumbstickRight

  /** A `Buttons` value: a flag set, `None` being the empty set. */
  type Buttons = set<PadButton>

  const NoButtons: Buttons := {}

  /** `Enum.GetValues<Buttons>()`: every value of the enumeration in ascending order,
      which puts `None` first and then each single flag. */
  const ButtonValues: seq<Buttons> :=
    [NoButtons,
     {DPadUp}, {DPadDown}, {DPadLeft}, {DPadRight}, {Start}, {Back},
     {LeftStick}, {RightStick}, {LeftShoulder}, {RightShoulder}, {BigButton},
     {A}, {B}, {X}, {Y},
     {LeftThumbstickLeft}, {RightTrigger}, {LeftTrigger},
     {RightThumbstickUp}, {RightThumbstickDown}, {RightThumbstickRight}, {RightThumbstickLeft},
     {LeftThumbstickUp}, {LeftThumbstickDown}, {LeftThumbstickRight}]

  /** `GamePadState.IsButtonDown`: every flag of `code` is down. */
  predicate IsButtonDown(pressed: set<PadButton>, code: Buttons)
  {
    code <= pressed
  }

  /** A keyboard key; the twelve keys the default keyboard mapping uses, and the rest. */
  datatype Key =
    | Up | Down | Left | Right
    | KeyA | KeyS | KeyD | KeyF | KeyZ | KeyX | KeyC | KeyV
    | Other(code: nat)

  /** `PlayerIndex`: the four gamepad slots. */
  datatype PlayerIndex = One | Two | Three | Four

  /** `GamePadCapabilities`, the fields the repository reads. A default
      (zero-initialised) value has empty strings and is not connected. */
  datatype GamePadCapabilities = GamePadCapabilities(Identifier: string, DisplayName: string, IsConnected: bool)

  const NoCapabilities := GamePadCapabilities("", "", false)

  /** `GamePadState`: whether the pad is connected and which flags are down. */
  datatype GamePadState = GamePadState(IsConnected: bool, Pressed: set<PadButton>)
}
