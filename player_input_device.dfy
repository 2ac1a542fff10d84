/**
 * The input device a player is bound to: a gamepad in one of the four slots,
 * or the keyboard through its key-to-pad mapping. Covers the controller-kind
 * guess from the pad's display name, the keyboard device's fixed identity,
 * remapping, and the rule that picks a device when a player presses something.
 */
module PlayerInputDevices {
  import opened Wrappers
  import opened Text
  import P = XnaInput
  import KeyboardMaps

  /** The identifier and name every keyboard device reports. */
  const KeyboardIdentifier: string := "Keyboard"

  /** `Kind`: the controller family, which decides the button glyphs. */
  datatype Kind = Xbox | PlayStation | Nintendo | Keyboard

  /** The names that mark a PlayStation pad: two words and "ps1" to "ps6". */
  const PlayStationAliases: seq<string> := ["playstation", "sony", "ps1", "ps2", "ps3", "ps4", "ps5", "ps6"]

  /** Some PlayStation alias is a substring of `name`. */
  predicate HasPlayStationAlias(name: string)
  {
    exists a | a in PlayStationAliases :: Contains(name, a)
  }

  /**
   * `GetPadKind`: the lower-cased display name is searched for "xbox" first,
   * then for a PlayStation alias, then for "switch" or "nintendo"; anything
   * else is taken for an Xbox pad. A pad is never a keyboard.
   */
  function GetPadKind(caps: P.GamePadCapabilities): (k: Kind)
    ensures k != Keyboard
  {
    var name := ToLower(caps.DisplayName);
    if !Contains(name, "xbox") then
      if HasPlayStationAlias(name) then PlayStation
      else if Contains(name, "switch") || Contains(name, "nintendo") then Nintendo
      else Xbox
    else Xbox
  }

  /** `sub` occurs in `s` at some position: the reference meaning of a
      substring test. */
  predicate Occurs(s: string, sub: string)
  {
    exists i | 0 <= i <= |s| :: sub <= s[i..]
  }

  /** The lower-cased display name a pad kind is decided on. */
  function LowerName(caps: P.GamePadCapabilities): string
  {
    ToLower(caps.DisplayName)
  }

  /** "xbox" anywhere in the name wins, whatever else the name holds. */
  lemma XboxWins(caps: P.GamePadCapabilities)
    requires Occurs(LowerName(caps), "xbox")
    ensures GetPadKind(caps) == Xbox
  {
    ContainsIff(LowerName(caps), "xbox");
  }

  /** Without "xbox", any PlayStation alias makes a PlayStation pad, even when
      "switch" or "nintendo" occurs too. */
  lemma AliasMakesPlayStation(caps: P.GamePadCapabilities, alias: string)
    requires !Occurs(LowerName(caps), "xbox")
    requires alias in PlayStationAliases && Occurs(LowerName(caps), alias)
    ensures GetPadKind(caps) == PlayStation
  {
    ContainsIff(LowerName(caps), "xbox");
    ContainsIff(LowerName(caps), alias);
  }

  /** Without "xbox" or an alias, "switch" or "nintendo" makes a Nintendo pad. */
  lemma SwitchMakesNintendo(caps: P.GamePadCapabilities, word: string)
    requires !Occurs(LowerName(caps), "xbox")
    requires forall a | a in PlayStationAliases :: !Occurs(LowerName(caps), a)
    requires (word == "switch" || word == "nintendo") && Occurs(LowerName(caps), word)
    ensures GetPadKind(caps) == Nintendo
  {
    var name := LowerName(caps);
    ContainsIff(name, "xbox");
    ContainsIff(name, word);
    forall a | a in PlayStationAliases ensures !Contains(name, a) {
      ContainsIff(name, a);
    }
  }

  /** A name with none of the words is taken for an Xbox pad. */
  lemma UnknownIsXbox(caps: P.GamePadCapabilities)
    requires forall a | a in PlayStationAliases :: !Occurs(LowerName(caps), a)
    requires !Occurs(LowerName(caps), "switch") && !Occurs(LowerName(caps), "nintendo")
    ensures GetPadKind(caps) == Xbox
  {
    var name := LowerName(caps);
    ContainsIff(name, "switch");
    ContainsIff(name, "nintendo");
    forall a | a in PlayStationAliases ensures !Contains(name, a) {
      ContainsIff(name, a);
    }
  }

  /** Lower-casing an upper-cased string is lower-casing it. */
  lemma LowerOfUpper(s: string)
    ensures ToLower(ToUpper(s)) == ToLower(s)
  {
    forall i | 0 <= i < |s| ensures ToLower(ToUpper(s))[i] == ToLower(s)[i] {
    }
  }

  /** The kind does not depend on the letter case of the display name. */
  lemma KindIgnoresCase(caps: P.GamePadCapabilities)
    ensures GetPadKind(caps.(DisplayName := ToUpper(caps.DisplayName))) == GetPadKind(caps)
  {
    LowerOfUpper(caps.DisplayName);
  }

  /** Every character of a prefix is a character of the whole. */
  lemma PrefixCharsOccur(s: string, sub: string)
    ensures sub <= s ==> forall x | x in sub :: x in s
  {
    if sub <= s {
      forall x | x in sub ensures x in s {
        var k :| 0 <= k < |sub| && sub[k] == x;
        assert s[k] == x;
      }
    }
  }

  /** A substring test fails when `sub` has a character `s` lacks. */
  lemma {:induction false} MissingCharNotContained(s: string, sub: string, c: char)
    requires c in sub && c !in s
    ensures !Contains(s, sub)
    decreases |s|
  {
    if |s| > 0 {
      assert forall x | x in s[1..] :: x in s;
      MissingCharNotContained(s[1..], sub, c);
    }
    PrefixCharsOccur(s, sub);
  }

  /** A pad whose name lower-cases to "ps4 xbox adapter" is an Xbox pad:
      "xbox" is tested before the PlayStation aliases. */
  lemma AdapterNamedForBothIsXbox(caps: P.GamePadCapabilities)
    requires LowerName(caps) == "ps4 xbox adapter"
    ensures GetPadKind(caps) == Xbox
  {
    assert "xbox" <= LowerName(caps)[4..];
    XboxWins(caps);
  }

  /** A pad whose name lower-cases to "dualsense ps5" is a PlayStation pad. */
  lemma DualSenseIsPlayStation(caps: P.GamePadCapabilities)
    requires LowerName(caps) == "dualsense ps5"
    ensures GetPadKind(caps) == PlayStation
  {
    var name := LowerName(caps);
    MissingCharNotContained(name, "xbox", 'x');
    assert "ps5" <= name[10..];
    ContainsIff(name, "ps5");
    assert PlayStationAliases[6] == "ps5";
  }

  /** A name with no 'y' and none of the digits 1 to 6 holds no PlayStation alias. */
  lemma NoAliasWithoutYOrDigit(name: string)
    requires 'y' !in name
    requires forall d | d in "123456" :: d !in name
    ensures !HasPlayStationAlias(name)
  {
    forall a | a in PlayStationAliases ensures !Contains(name, a) {
      if a == "playstation" || a == "sony" {
        MissingCharNotContained(name, a, 'y');
      } else {
        assert a[2] in "123456" && a[2] in a;
        MissingCharNotContained(name, a, a[2]);
      }
    }
  }

  /** A pad whose name lower-cases to "switch" is a Nintendo pad. */
  lemma SwitchIsNintendo(caps: P.GamePadCapabilities)
    requires LowerName(caps) == "switch"
    ensures GetPadKind(caps) == Nintendo
  {
    SwitchNameTests(LowerName(caps));
  }

  /** The three tests `GetPadKind` makes, on the name "switch". */
  lemma SwitchNameTests(name: string)
    requires name == "switch"
    ensures !Contains(name, "xbox") && !HasPlayStationAlias(name) && Contains(name, "switch")
  {
    MissingCharNotContained(name, "xbox", 'x');
    NoAliasWithoutYOrDigit(name);
    assert "switch" <= name[0..];
    ContainsIff(name, "switch");
  }

  /** `PlayerInputDevice`: a pad slot, or the keyboard with its mapping. */
  class PlayerInputDevice {
    const Index: P.PlayerIndex
    const Capabilities: P.GamePadCapabilities
    const IsKeyboard: bool
    const keyboardMapping: KeyboardMaps.KeyboardToPadMap
    /** The last polled state; `None` until the first poll and after `Disconnect`. */
    var currentState: Option<P.GamePadState>

    /** A gamepad device; it owns a keyboard mapping of its own that it never uses. */
    constructor (index: P.PlayerIndex, caps: P.GamePadCapabilities)
      ensures Index == index && Capabilities == caps && !IsKeyboard && currentState.None?
      ensures fresh(keyboardMapping) && keyboardMapping.HasDefaults()
    {
      Index := index;
      Capabilities := caps;
      IsKeyboard := false;
      keyboardMapping := new KeyboardMaps.KeyboardToPadMap();
      currentState := None;
    }

    /** The keyboard device: slot one, default capabilities, the given mapping. */
    constructor FromKeyboard(keyboardMap: KeyboardMaps.KeyboardToPadMap)
      ensures Index == P.One && Capabilities == P.NoCapabilities && IsKeyboard
      ensures keyboardMapping == keyboardMap && currentState.None?
      ensures Identifier() == KeyboardIdentifier && Name() == KeyboardIdentifier
      ensures IsConnected() && GetKind() == Keyboard
    {
      Index := P.One;
      Capabilities := P.NoCapabilities;
      IsKeyboard := true;
      keyboardMapping := keyboardMap;
      currentState := None;
    }

    /** `Identifier`: the keyboard's fixed identifier, or the pad's own. */
    function Identifier(): (r: string)
      ensures IsKeyboard ==> r == KeyboardIdentifier
      ensures !IsKeyboard ==> r == Capabilities.Identifier
    {
      if IsKeyboard then KeyboardIdentifier else Capabilities.Identifier
    }

    /** `Name`: "Keyboard", or the pad's display name. */
    function Name(): (r: string)
      ensures IsKeyboard ==> r == KeyboardIdentifier
      ensures !IsKeyboard ==> r == Capabilities.DisplayName
    {
      if IsKeyboard then KeyboardIdentifier else Capabilities.DisplayName
    }

    /** `IsConnected`: the keyboard always is; a pad when its last poll says so. */
    predicate IsConnected()
      reads this
    {
      IsKeyboard || (currentState.Some? && currentState.value.IsConnected)
    }

    /** `Disconnect`: forgets the polled state, which leaves only a keyboard connected. */
    method Disconnect()
      modifies this`currentState
      ensures currentState.None?
      ensures IsConnected() <==> IsKeyboard
    {
      currentState := None;
    }

    /** `GetKind`: Keyboard exactly for the keyboard device; a pad's kind comes
        from its display name. */
    function GetKind(): (k: Kind)
      ensures k == Keyboard <==> IsKeyboard
      ensures !IsKeyboard ==> k == GetPadKind(Capabilities)
    {
      if IsKeyboard then Keyboard else GetPadKind(Capabilities)
    }

    /** `TryRemapKeyboardFor`: only the keyboard device learns a key, through its
        mapping's `DetectUpdate`; a pad answers false and changes nothing. */
    method TryRemapKeyboardFor(button: P.Buttons, pressedKeys: seq<P.Key>) returns (r: bool)
      modifies keyboardMapping
      ensures !IsKeyboard ==> !r && unchanged(keyboardMapping)
      ensures IsKeyboard ==> (r <==> |pressedKeys| == 1)
      ensures !r ==> unchanged(keyboardMapping)
      ensures r ==> keyboardMapping.LearntDirections(button, pressedKeys[0],
                      old(keyboardMapping.Up), old(keyboardMapping.Down),
                      old(keyboardMapping.Left), old(keyboardMapping.Right))
      ensures r ==> keyboardMapping.LearntFace(button, pressedKeys[0],
                      old(keyboardMapping.X), old(keyboardMapping.Y),
                      old(keyboardMapping.A), old(keyboardMapping.B))
      ensures r ==> keyboardMapping.LearntShoulders(button, pressedKeys[0],
                      old(keyboardMapping.RightShoulder), old(keyboardMapping.LeftShoulder),
                      old(keyboardMapping.RightTrigger), old(keyboardMapping.LeftTrigger))
    {
      if !IsKeyboard {
        return false;
      }
      r := keyboardMapping.DetectUpdate(button, pressedKeys);
    }
  }

  /** The first of `values` that is down on a connected pad, or `None` for a
      disconnected pad or when none of them is down. */
  function FirstDown(state: P.GamePadState, values: seq<P.Buttons>): (r: Option<P.Buttons>)
    ensures r.None? <==> !state.IsConnected || forall k | 0 <= k < |values| :: !P.IsButtonDown(state.Pressed, values[k])
    ensures r.Some? ==> r.value in values && P.IsButtonDown(state.Pressed, r.value)
  {
    if !state.IsConnected || values == [] then None
    else if P.IsButtonDown(state.Pressed, values[0]) then Some(values[0])
    else FirstDown(state, values[1..])
  }

  /** `GetAnyButton` as written: it scans every value of the enumeration, `None`
      included. */
  function GetAnyButton(state: P.GamePadState): Option<P.Buttons>
  {
    FirstDown(state, P.ButtonValues)
  }

  /** `IsButtonDown(None)` holds on every pad, so as written `GetAnyButton` answers
      `None` for every connected pad, whatever is pressed. */
  lemma GetAnyButtonAnswersWhenConnected(state: P.GamePadState)
    ensures GetAnyButton(state).Some? <==> state.IsConnected
    ensures state.IsConnected ==> GetAnyButton(state) == Some(P.NoButtons)
  {
  }

  /** The evident intent of `GetAnyButton`: the scan skips `None`. */
  function GetAnyFlag(state: P.GamePadState): Option<P.Buttons>
  {
    FirstDown(state, P.ButtonValues[1..])
  }

  /** The intended `GetAnyButton` is not null: the pad is connected and some flag is
      down. Device selection uses this rule. */
  predicate HasButtonDown(state: P.GamePadState)
  {
    state.IsConnected && state.Pressed != {}
  }

  /** The intended scan answers exactly when the pad is connected and some control
      is down. */
  lemma GetAnyFlagIff(state: P.GamePadState)
    ensures GetAnyFlag(state).Some? <==> HasButtonDown(state)
  {
    var flags := P.ButtonValues[1..];
    assert forall k | 0 <= k < |flags| :: flags[k] != {};
    if HasButtonDown(state) {
      var p :| p in state.Pressed;
      assert {p} in flags by {
        match p
        case DPadUp => assert flags[0] == {p};
        case DPadDown => assert flags[1] == {p};
        case DPadLeft => assert flags[2] == {p};
        case DPadRight => assert flags[3] == {p};
        case Start => assert flags[4] == {p};
        case Back => assert flags[5] == {p};
        case LeftStick => assert flags[6] == {p};
        case RightStick => assert flags[7] == {p};
        case LeftShoulder => assert flags[8] == {p};
        case RightShoulder => assert flags[9] == {p};
        case BigButton => assert flags[10] == {p};
        case A => assert flags[11] == {p};
        case B => assert flags[12] == {p};
        case X => assert flags[13] == {p};
        case Y => assert flags[14] == {p};
        case LeftThumbstickLeft => assert flags[15] == {p};
        case RightTrigger => assert flags[16] == {p};
        case LeftTrigger => assert flags[17] == {p};
        case RightThumbstickUp => assert flags[18] == {p};
        case RightThumbstickDown => assert flags[19] == {p};
        case RightThumbstickRight => assert flags[20] == {p};
        case RightThumbstickLeft => assert flags[21] == {p};
        case LeftThumbstickUp => assert flags[22] == {p};
        case LeftThumbstickDown => assert flags[23] == {p};
        case LeftThumbstickRight => assert flags[24] == {p};
      }
      assert P.IsButtonDown(state.Pressed, {p});
    }
  }

  /** The pad `DetectPress` takes as written: the first whose `GetAnyButton`
      answers, which is simply the first connected pad. */
  function FirstAnswering(states: seq<P.GamePadState>): (i: int)
    ensures -1 <= i < |states|
    ensures i == -1 <==> forall j | 0 <= j < |states| :: !states[j].IsConnected
    ensures 0 <= i ==> states[i].IsConnected && forall j | 0 <= j < i :: !states[j].IsConnected
  {
    if states == [] then -1
    else
      GetAnyButtonAnswersWhenConnected(states[0]);
      if GetAnyButton(states[0]).Some? then 0
      else
        var rest := FirstAnswering(states[1..]);
        if rest == -1 then -1 else rest + 1
  }

  /** Two connected pads, the first idle and the second pressing A: as written the
      idle pad is taken, while the intended rule takes the second. */
  lemma IdlePadTakenAsWritten()
    ensures var states := [P.GamePadState(true, {}), P.GamePadState(true, {P.A})];
            FirstAnswering(states) == 0 && Select(false, states, false) == PadAt(1)
  {
  }

  /** The first pad with a button down, or -1. */
  function FirstWithButton(states: seq<P.GamePadState>): (i: int)
    ensures -1 <= i < |states|
    ensures i == -1 <==> forall j | 0 <= j < |states| :: !HasButtonDown(states[j])
    ensures 0 <= i ==> HasButtonDown(states[i]) && forall j | 0 <= j < i :: !HasButtonDown(states[j])
  {
    if states == [] then -1
    else if HasButtonDown(states[0]) then 0
    else
      var rest := FirstWithButton(states[1..]);
      if rest == -1 then -1 else rest + 1
  }

  /** Which device `DetectPress` picks. */
  datatype Choice = PadAt(index: nat) | NewKeyboard | NoDevice

  /** The selection rule: the only pad when auto-selection is on and exactly one
      pad is connected; else the first pad with a button down; else the
      keyboard if a mapped key is down; else nothing. */
  function Select(autoSelectSingle: bool, states: seq<P.GamePadState>, keyboardPressed: bool): Choice
  {
    if autoSelectSingle && |states| == 1 then PadAt(0)
    else
      var i := FirstWithButton(states);
      if i >= 0 then PadAt(i)
      else if keyboardPressed then NewKeyboard
      else NoDevice
  }

  /** A chosen pad is one of the connected pads. */
  lemma SelectInRange(autoSelectSingle: bool, states: seq<P.GamePadState>, keyboardPressed: bool)
    ensures var c := Select(autoSelectSingle, states, keyboardPressed);
            c.PadAt? ==> c.index < |states|
  {
  }

  /** With auto-selection on, a single connected pad is chosen even when nothing is pressed. */
  lemma SoleUnpressedPadChosen(states: seq<P.GamePadState>, keyboardPressed: bool)
    requires |states| == 1 && !HasButtonDown(states[0])
    ensures Select(true, states, keyboardPressed) == PadAt(0)
    ensures Select(false, states, keyboardPressed) != PadAt(0)
  {
  }

  /** Otherwise a pad is chosen exactly when it is the first with a button down. */
  lemma PadChosenIffFirstPressed(autoSelectSingle: bool, states: seq<P.GamePadState>, keyboardPressed: bool, i: nat)
    requires !(autoSelectSingle && |states| == 1) && i < |states|
    ensures Select(autoSelectSingle, states, keyboardPressed) == PadAt(i) <==>
            HasButtonDown(states[i]) && forall j | 0 <= j < i :: !HasButtonDown(states[j])
  {
  }

  /** The keyboard is chosen exactly when a mapped key is down, no pad has a
      button down, and the single-pad rule does not apply. */
  lemma KeyboardChosenIff(autoSelectSingle: bool, states: seq<P.GamePadState>, keyboardPressed: bool)
    ensures Select(autoSelectSingle, states, keyboardPressed) == NewKeyboard <==>
            && keyboardPressed
            && !(autoSelectSingle && |states| == 1)
            && forall j | 0 <= j < |states| :: !HasButtonDown(states[j])
  {
  }

  /** Nothing is chosen exactly when no rule applies. */
  lemma NothingChosenIff(autoSelectSingle: bool, states: seq<P.GamePadState>, keyboardPressed: bool)
    ensures Select(autoSelectSingle, states, keyboardPressed) == NoDevice <==>
            && !keyboardPressed
            && !(autoSelectSingle && |states| == 1)
            && forall j | 0 <= j < |states| :: !HasButtonDown(states[j])
  {
  }

  /**
   * `DetectPress` over the connected pads (in slot order) and their polled
   * states; a keyboard device is built on the mapping when the keyboard wins.
   */
  method DetectPress(autoSelectSingle: bool, connected: seq<PlayerInputDevice>, states: seq<P.GamePadState>,
                     keyboardToPadMap: Option<KeyboardMaps.KeyboardToPadMap>, keys: set<P.Key>)
    returns (r: Option<PlayerInputDevice>)
    requires |states| == |connected|
    ensures var c := Select(autoSelectSingle, states,
                            keyboardToPadMap.Some? && keyboardToPadMap.value.AnyPress(keys));
            && (c.PadAt? ==> c.index < |connected| && r == Some(connected[c.index]))
            && (c.NewKeyboard? ==> r.Some? && fresh(r.value) && r.value.IsKeyboard
                                   && r.value.keyboardMapping == keyboardToPadMap.value)
            && (c.NoDevice? ==> r.None?)
  {
    if autoSelectSingle && |connected| == 1 {
      return Some(connected[0]);
    }
    var i := 0;
    while i < |connected|
      invariant 0 <= i <= |connected|
      invariant forall j | 0 <= j < i :: !HasButtonDown(states[j])
    {
      if HasButtonDown(states[i]) {
        return Some(connected[i]);
      }
      i := i + 1;
    }
    if keyboardToPadMap.Some? && keyboardToPadMap.value.AnyPress(keys) {
      var device := new PlayerInputDevice.FromKeyboard(keyboardToPadMap.value);
      return Some(device);
    }
    return None;
  }
}
