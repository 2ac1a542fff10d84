# InputDisplay in Dafny

This project models the core of InputDisplay, an overlay that shows a fighting-game
player's controller or keyboard inputs as a scrolling history of lines.

The model covers the per-frame input pipeline:

- the button state machine (`GameInput`). Each button is pressed, held, released or
  neutral, and a button map turns raw pad buttons into game buttons.
- SOCD cleaning of opposing directions, in its bypass, neutral, up-priority and
  last-priority modes.
- the history buffer (`InputBuffer`). It has a hold counter, auto-correct merging and a
  bounded length.
- the drawable line of one frame (`InputEntry`), including macro expansion.

Around the pipeline, the model also covers:

- button maps (`ButtonMap`, `InputMap`) with their swap-on-conflict assignment;
- the keyboard-to-pad mapping and how it learns keys;
- detection of the active player device and of the pad kind from its name;
- themes and their texture paths, and the cycles that select them;
- the colour codes read from settings;
- content path joining;
- the padding and spacing attributes of bitmap fonts and their character table.

Pure code (direction arithmetic, SOCD, colour parsing, path joining) is written as
functions with lemmas. Objects whose fields change are written as classes with
`modifies` clauses. Each class method is proved against a specification function, and
the lemmas beside that function state what the source promises.

The MonoGame types the code consumes are given as plain values in `xna_input.dfy`:

- the pad button flags;
- `GamePadState` and its capabilities;
- keys and player indexes.

`text.dfy` gives the .NET string operations the code relies on:

- case mapping;
- `Contains` and `Replace`;
- integer formatting and parsing;
- `Split` and `Join`.

## Model

| member | source | states |
|---|---|---|
| Buttons.AttackButtonLayout | src/InputDisplay/Inputs/Buttons.cs:4-15 | the eight attack buttons are bits 1 to 8 in declaration order; the ten single names are distinct single bits and none is bit 0 |
| Buttons.From | src/InputDisplay/Inputs/Buttons.cs:44-56 | the numpad digit is always in 1..9, and it is 5 exactly for neutral or for a combination that has no name |
| Buttons.ToDirection | src/InputDisplay/Inputs/Buttons.cs:58-69 | the result is always a named direction, and it is neutral exactly for 5 or for a number outside 1..9 |
| Buttons.NumpadRoundTrip | src/InputDisplay/Inputs/Buttons.cs:44-69 | the two conversions are inverse on the nine named directions and on the digits 1..9 |
| Buttons.NumpadStrings | src/InputDisplay/Inputs/Buttons.cs:72-83 | each numpad constant's text is its own decimal digit |
| Socd.BypassKeepsRaw | src/InputDisplay/Inputs/SOCD.cs:27-33 | bypass returns the raw direction, opposing bits included, so it is a single direction exactly when no opposing pair is held |
| Socd.NoConflictUnchanged | src/InputDisplay/Inputs/SOCD.cs:30-98 | a direction with no opposing pair comes back unchanged in every mode |
| Socd.NeutralClearsConflicts | src/InputDisplay/Inputs/SOCD.cs:35-71 | neutral mode clears exactly both bits of each conflicting axis; no opposing pair remains |
| Socd.UpPriorityKeepsUp | src/InputDisplay/Inputs/SOCD.cs:35-74 | up-priority clears both horizontal bits of a conflict but only Down of a vertical one; Up stays and no opposing pair remains |
| Socd.LastPriorityRepeatsPrevious | src/InputDisplay/Inputs/SOCD.cs:44-45 | under last-priority, a raw direction unchanged since the last frame gives the previous cleaned direction back, when that one is conflict-free |
| Socd.LastPriorityHorizontalSticks | src/InputDisplay/Inputs/SOCD.cs:46-56 | when the previous raw direction had the same horizontal conflict, the axis keeps the single side the previous cleaned direction kept (Backward tested first); other bits are untouched |
| Socd.LastPriorityHorizontalNewest | src/InputDisplay/Inputs/SOCD.cs:57-60 | on a new horizontal conflict, the side that was held alone before is dropped; when neither side was held alone, both stay |
| Socd.LastPriorityVerticalSticks | src/InputDisplay/Inputs/SOCD.cs:78-88 | when the previous raw direction had the same vertical conflict, the axis keeps the single side the previous cleaned direction kept (Up tested first); other bits are untouched |
| Socd.LastPriorityVerticalNewest | src/InputDisplay/Inputs/SOCD.cs:90-93 | on a new vertical conflict, the side that was held alone before is dropped; when neither side was held alone, both stay |
| Socd.VerticalFallThroughHarmless | src/InputDisplay/Inputs/SOCD.cs:75-94 | the vertical tests, which are not chained to each other, give the same result as a fully chained if-else |
| Socd.LastPriorityMayKeepBoth | src/InputDisplay/Inputs/SOCD.cs:43-94 | pressing both sides of an axis on the same frame from a released stick keeps both under last-priority |
| Socd.AxisBitsCoverRaw | src/InputDisplay/Inputs/SOCD.cs:107-117 | each component is one of the four axis bits and is set in the raw direction; together they give back the raw direction's axis bits |
| Socd.ComponentsCoverRaw | src/InputDisplay/Inputs/SOCD.cs:100-118 | every mode but bypass lists the raw direction first; the rest are single axis bits that together cover the raw direction's axis bits |
| GameInputs.Button.Combine | src/InputDisplay/Inputs/GameInput.cs:28-32 | the result is Pressed iff either side is Pressed, active iff the left is active or the right is Pressed, and otherwise keeps the left status |
| GameInputs.StatusFlags | src/InputDisplay/Inputs/GameInput.cs:18-19 | an active button is Pressed or Holding, never Released or Unpressed, and a Pressed button is active |
| GameInputs.CombineNotSymmetric | src/InputDisplay/Inputs/GameInput.cs:28-32 | Holding combined with Released gives Holding, while Released combined with Holding gives Released |
| GameInputs.State.Combine | src/InputDisplay/Inputs/GameInput.cs:118-132 | each button is the combination of the two states' buttons; the stick is kept |
| GameInputs.State.GetActiveButtons | src/InputDisplay/Inputs/GameInput.cs:134-148 | a button's bit is set exactly when that button is active, and no other bit is set |
| GameInputs.EquivalentIffSameView | src/InputDisplay/Inputs/GameInput.cs:55-66 | two states are equivalent exactly when they have the same cleaned direction and the same active buttons |
| GameInputs.EquivalenceRelation | src/InputDisplay/Inputs/GameInput.cs:55-66 | equivalence of states is reflexive, symmetric and transitive |
| GameInputs.StateKinds | src/InputDisplay/Inputs/GameInput.cs:68-116 | neutral-only and direction-only exclude each other; one of them holds exactly when no button is active; neutral-only implies nothing is pressed |
| GameInputs.UpdateButton | src/InputDisplay/Inputs/GameInput.cs:154-189 | an unbound button becomes Unpressed; otherwise it is active iff its control is down, Pressed iff down and not active before, Released iff up and active before |
| GameInputs.StatusTable | src/InputDisplay/Inputs/GameInput.cs:164-188 | the eight transitions from the previous status and whether the control is down |
| GameInputs.RawDirection | src/InputDisplay/Inputs/GameInput.cs:201-230 | each direction bit is set exactly when it is down on the d-pad or on an enabled stick, and no other bit is set |
| GameInputs.NextStickMeaning | src/InputDisplay/Inputs/GameInput.cs:191-235 | with no source enabled the stick resets; otherwise the raw direction comes from the sources, it is Holding iff a non-neutral raw repeats, bypass keeps it, neutral and up-priority leave no opposing pair, and a conflict-free raw is kept |
| GameInputs.NextState | src/InputDisplay/Inputs/GameInput.cs:237-256 | the stick becomes the next stick, and each button is moved by UpdateButton under its own binding |
| GameInputs.ActiveAfterUpdate | src/InputDisplay/Inputs/GameInput.cs:246-255 | after an update a button is active exactly when it is bound and its control is down |
| GameInputs.GameInput.constructor | src/InputDisplay/Inputs/GameInput.cs:151 | starts in the initial state: neutral stick and every button up |
| GameInputs.GameInput.UpdateDirections | src/InputDisplay/Inputs/GameInput.cs:191-235 | only the stick changes, to the next stick of the specification |
| GameInputs.GameInput.Update | src/InputDisplay/Inputs/GameInput.cs:237-256 | the state becomes NextState of the old state under the bindings of the map it is given |
| InputBuffers.RecordHeld | src/InputDisplay/Inputs/Drawable/InputBuffer.cs:17-23 | an equivalent frame changes only the newest line's counter, to NextHoldingFrames of it |
| InputBuffers.RecordAppends | src/InputDisplay/Inputs/Drawable/InputBuffer.cs:25-47 | a new frame appends one line with counter 1, holding the frame's state, or that state combined with the previous newest line's when auto-correct merges; the oldest line is dropped when over the size; the other lines keep their order and counters |
| InputBuffers.RecordShowsCurrent | src/InputDisplay/Inputs/Drawable/InputBuffer.cs:25-36 | the newest line has the frame's direction and its active buttons, plus, after a merge, the buttons the previous line had just pressed |
| InputBuffers.RecordBounded | src/InputDisplay/Inputs/Drawable/InputBuffer.cs:43-47 | a history within the size stays within it, and with a size of at least one it is never empty after recording |
| InputBuffers.RecordNoRepeats | src/InputDisplay/Inputs/Drawable/InputBuffer.cs:17-23 | without auto-correct, no two neighbouring lines are equivalent, and recording keeps it so |
| InputBuffers.MergeMayRepeat | src/InputDisplay/Inputs/Drawable/InputBuffer.cs:25-30 | with auto-correct, a merge can leave two equivalent neighbouring lines |
| InputBuffers.VisibleMembers | src/InputDisplay/Inputs/Drawable/InputBuffer.cs:70-80 | the drawn lines are exactly the lines that are not hidden, newest first |
| InputBuffers.VisibleAll | src/InputDisplay/Inputs/Drawable/InputBuffer.cs:70-80 | without hiding, every line is drawn, newest first |
| InputBuffers.HiddenSimplified | src/InputDisplay/Inputs/Drawable/InputBuffer.cs:73-76 | a line is hidden exactly when hiding is on and either nothing is pressed or, with no direction source, the line is direction-only; the neutral-only test is subsumed |
| InputBuffers.InputBuffer.constructor | src/InputDisplay/Inputs/Drawable/InputBuffer.cs:6-9 | starts with an empty history and a game input in the initial state |
| InputBuffers.InputBuffer.Update | src/InputDisplay/Inputs/Drawable/InputBuffer.cs:12-39 | the game input takes NextState under the map GetMappingOrDefault gives, and the history becomes Record of the old one |
| InputBuffers.InputBuffer.RecordFrame | src/InputDisplay/Inputs/Drawable/InputBuffer.cs:15-38 | the history becomes Record of the old history and the frame |
| InputBuffers.InputBuffer.HoldLast | src/InputDisplay/Inputs/Drawable/InputBuffer.cs:19-22 | only the newest line's hold counter changes |
| InputBuffers.InputBuffer.Add | src/InputDisplay/Inputs/Drawable/InputBuffer.cs:33-38 | the history becomes the old one plus a new line with counter 1, shrunk to the size |
| InputBuffers.InputBuffer.Clear | src/InputDisplay/Inputs/Drawable/InputBuffer.cs:41 | the buffer becomes empty |
| InputBuffers.InputBuffer.ShrinkBuffer | src/InputDisplay/Inputs/Drawable/InputBuffer.cs:43-47 | drops the oldest line exactly when there are more lines than the size |
| InputBuffers.InputBuffer.VisibleLines | src/InputDisplay/Inputs/Drawable/InputBuffer.cs:70-80 | the loop returns Visible of the history |
| InputEntries.NextHoldingFrames | src/InputDisplay/Inputs/Drawable/InputEntry.cs:8-14 | a counter in 1..99 stays there; below 99 it grows by one, and from 98 on it is 99 |
| InputEntries.CheckAdds | src/InputDisplay/Inputs/Drawable/InputEntry.cs:134-167 | each part gains exactly the button's contribution: its expansion if active, held or pressed by status when shading, and the button itself when its expansion is empty |
| InputEntries.CollectPart | src/InputDisplay/Inputs/Drawable/InputEntry.cs:82-98 | each part is the union over the eight attack buttons; the repeated LP and MP checks add nothing |
| InputEntries.CollectCurrent | src/InputDisplay/Inputs/Drawable/InputEntry.cs:82-98 | the drawn buttons are the expansions of the active attack buttons |
| InputEntries.CollectHolding | src/InputDisplay/Inputs/Drawable/InputEntry.cs:150-163 | with shading, the held set is the expansions of the Holding buttons; without, it is empty |
| InputEntries.CollectPressed | src/InputDisplay/Inputs/Drawable/InputEntry.cs:150-163 | with shading, the pressed set is the expansions of the Pressed buttons; without, it is empty |
| InputEntries.CollectFallback | src/InputDisplay/Inputs/Drawable/InputEntry.cs:140-144 | the fallback set is the active buttons whose expansion is empty |
| InputEntries.StickClicksNotCollected | src/InputDisplay/Inputs/Drawable/InputEntry.cs:89-98 | the stick-click buttons are never drawn |
| InputEntries.NothingDownShowsNothing | src/InputDisplay/Inputs/Drawable/InputEntry.cs:82-98 | a frame with nothing active draws no buttons |
| InputEntries.ShadedMeaning | src/InputDisplay/Inputs/Drawable/InputEntry.cs:127 | a button is grey exactly when shading is on and it comes from a held button and from no pressed one |
| InputEntries.InputEntry.constructor | src/InputDisplay/Inputs/Drawable/InputEntry.cs:10-19 | holds the state with counter 1 and empty sets |
| InputEntries.InputEntry.IncrementFrame | src/InputDisplay/Inputs/Drawable/InputEntry.cs:14 | the counter becomes NextHoldingFrames of it and stays valid |
| InputEntries.InputEntry.CheckButton | src/InputDisplay/Inputs/Drawable/InputEntry.cs:134-167 | the loop adds to each part what CheckAdds says |
| InputEntries.InputEntry.DrawButtons | src/InputDisplay/Inputs/Drawable/InputEntry.cs:82-98 | clears the sets, then they equal Collect of the entry's state |
| InputMaps.SetCodesEffect | src/InputDisplay/Inputs/InputMap.cs:80-87 | the target gets the code; setting a code it already has changes nothing; for a code other than None only the first other holder gets the target's old code; the rest are unchanged |
| InputMaps.SetCodesKeepsDistinct | src/InputDisplay/Inputs/InputMap.cs:80-87 | when no two buttons share a control other than None, a set keeps it so |
| InputMaps.DefaultCodesDistinct | src/InputDisplay/Inputs/InputMap.cs:12-19 | the eight defaults are distinct and none is None |
| InputMaps.ButtonMap.constructor | src/InputDisplay/Inputs/InputMap.cs:10-19 | starts with the default codes, and LeftStick and RightStick for the stick clicks |
| InputMaps.ButtonMap.Get | src/InputDisplay/Inputs/InputMap.cs:21-32 | gives Some exactly for the eight attack names, with that field's code; any other name gives None |
| InputMaps.ButtonMap.Lookup | src/InputDisplay/Inputs/InputMap.cs:34-45 | None exactly when no field holds the code; otherwise the first name in order that does |
| InputMaps.ButtonMap.Set | src/InputDisplay/Inputs/InputMap.cs:47-78 | for the eight names the codes become SetCodes of the old ones; any other name leaves the map unchanged; the stick clicks are kept |
| InputMaps.ButtonMap.Assign | src/InputDisplay/Inputs/InputMap.cs:49-74 | writes one position and leaves the others alone |
| InputMaps.ButtonMap.Swap | src/InputDisplay/Inputs/InputMap.cs:80-87 | returns the code, and the previous owner receives the old code |
| InputMaps.ButtonMap.Reset | src/InputDisplay/Inputs/InputMap.cs:95-105 | the codes become the defaults; the stick clicks are kept |
| InputMaps.InputMap.GetMapping | src/InputDisplay/Inputs/InputMap.cs:119-122 | None exactly when the id is blank or has no stored map; otherwise the stored map |
| InputMaps.InputMap.GetMappingOrDefault | src/InputDisplay/Inputs/InputMap.cs:124-125 | the stored map, else the default map |
| Themes.DirNameMeaning | src/InputDisplay/Themes/Theme.cs:51-68 | a named non-neutral direction gets the numpad text of its digit; any other gets "5" when the theme has a neutral image, else nothing |
| Themes.DirectionTexturePath | src/InputDisplay/Themes/Theme.cs:51-73 | for a theme name not ending in a separator, a named non-neutral direction gives the theme path, a backslash and its digit, with every '/' turned into '\'; any other direction in a theme without a neutral image gives `themes\n` |
| Themes.FaceButtons.Path | src/InputDisplay/Themes/Theme.cs:82 | the buttons folder path is never blank |
| Themes.ButtonsPathShape | src/InputDisplay/Themes/Theme.cs:78-82 | a plain theme name gives `themes\btn\` followed by the name |
| Themes.FaceButtons.GetTexturePath | src/InputDisplay/Themes/Theme.cs:92-95 | Some exactly when the button has an image, and then never blank |
| Themes.Theme.GetMacro | src/InputDisplay/Themes/Theme.cs:20-21 | the template's entry for the button, even an empty one, else the button alone |
| Themes.Theme.GetMacroWith | src/InputDisplay/Themes/Theme.cs:23-24 | the user's entry, then the template's, then the button alone |
| KeyboardMaps.KeyboardToPadMap.constructor | src/InputDisplay/Inputs/KeyboardToPadMap.cs:8-19 | starts with the arrow keys, A S D F and Z X C V |
| KeyboardMaps.GetButtonsMeaning | src/InputDisplay/Inputs/KeyboardToPadMap.cs:21-59 | a control is reported exactly when the keyboard drives it and its key is down |
| KeyboardMaps.DirectionButtonsMeaning | src/InputDisplay/Inputs/KeyboardToPadMap.cs:25-47 | a direction key reports both its d-pad and its left-stick control |
| KeyboardMaps.FaceButtonsMeaning | src/InputDisplay/Inputs/KeyboardToPadMap.cs:49-56 | each button key reports its own control |
| KeyboardMaps.AnyPressIffButtons | src/InputDisplay/Inputs/KeyboardToPadMap.cs:21-75 | the keyboard counts as pressed exactly when GetButtons is non-empty |
| KeyboardMaps.KeyboardToPadMap.DetectUpdate | src/InputDisplay/Inputs/KeyboardToPadMap.cs:79-106 | true exactly when exactly one key is pressed; then that key is bound to every named control (Right from DPadRight or RightThumbstickRight); otherwise nothing changes |
| KeyboardMaps.LearntKeyProduces | src/InputDisplay/Inputs/KeyboardToPadMap.cs:84-105 | after learning, the learnt key reports every named control except LeftThumbstickRight |
| KeyboardMaps.LeftStickRightTeachesNothing | src/InputDisplay/Inputs/KeyboardToPadMap.cs:93-94 | learning for the left stick's right direction alone changes no binding |
| KeyboardMaps.KeyboardToPadMap.Reset | src/InputDisplay/Inputs/KeyboardToPadMap.cs:136-150 | every key returns to its default |
| KeyboardMaps.DefaultLayout | src/InputDisplay/Inputs/KeyboardToPadMap.cs:8-59 | by default Right gives DPadRight and LeftThumbstickRight, A and Z together give X and A, and an unbound key gives nothing |
| Cycles.Wrap | src/InputDisplay/Util/Cycle.cs:29-35 | for a non-empty list the index is in range; an in-range index is kept; one past either end goes to the other end |
| Cycles.NextPreviousRestore | src/InputDisplay/Util/Cycle.cs:15-27 | Next then Previous, or Previous then Next, restores the index |
| Cycles.AdvanceWithinTurn | src/InputDisplay/Util/Cycle.cs:15-20 | k steps forward, k at most the length, move k places with wrap-around |
| Cycles.FullTurn | src/InputDisplay/Util/Cycle.cs:15-20 | as many steps as there are items return to the start |
| Cycles.Cycle.constructor | src/InputDisplay/Util/Cycle.cs:3-5 | keeps the items and the index, without checking it |
| Cycles.Cycle.Current | src/InputDisplay/Util/Cycle.cs:7 | None exactly when the index is off the list, else the item at the index |
| Cycles.Cycle.SetIndex | src/InputDisplay/Util/Cycle.cs:9-13 | the index becomes the wrapped index |
| Cycles.Cycle.Next | src/InputDisplay/Util/Cycle.cs:15-20 | the index moves forward by one with wrap-around, and the new current item is returned |
| Cycles.Cycle.Previous | src/InputDisplay/Util/Cycle.cs:22-27 | the index moves back by one with wrap-around, and the new current item is returned |
| Cycles.Cycle.CheckIndex | src/InputDisplay/Util/Cycle.cs:29-35 | the index becomes Wrap of the old index |
| ThemeCycles.IndexOf | src/InputDisplay/Themes/ThemeCycle.cs:11-14 | -1 exactly when the value is absent, else its first position |
| ThemeCycles.IndexOfFinds | src/InputDisplay/Themes/ThemeCycle.cs:11-14 | a present value is found at a position that holds it |
| ThemeCycles.StartAtFinds | src/InputDisplay/Themes/ThemeCycle.cs:9-16 | for a theme whose parts are in both tables, the cursors then select those same parts |
| ThemeCycles.ThemeCycle.constructor | src/InputDisplay/Themes/ThemeCycle.cs:6-7 | both cursors start at 0 |
| ThemeCycles.ThemeCycle.Selected | src/InputDisplay/Themes/ThemeCycle.cs:18-56 | Some exactly when both cursors are valid, and never a fallback theme |
| ThemeCycles.ThemeCycle.StartAt | src/InputDisplay/Themes/ThemeCycle.cs:9-16 | each cursor goes to the first index holding its part, else stays |
| ThemeCycles.ThemeCycle.NextStick | src/InputDisplay/Themes/ThemeCycle.cs:18-24 | only the stick cursor moves, forward by one with wrap-around; returns the selected theme |
| ThemeCycles.ThemeCycle.PrevStick | src/InputDisplay/Themes/ThemeCycle.cs:26-32 | only the stick cursor moves, back by one with wrap-around; returns the selected theme |
| ThemeCycles.ThemeCycle.NextButtons | src/InputDisplay/Themes/ThemeCycle.cs:34-44 | only the button cursor moves, forward by one with wrap-around; returns the selected theme |
| ThemeCycles.ThemeCycle.PrevButtons | src/InputDisplay/Themes/ThemeCycle.cs:46-56 | only the button cursor moves, back by one with wrap-around; returns the selected theme |
| PlayerInputDevices.GetPadKind | src/InputDisplay/Inputs/PlayerInputDevice.cs:77-90 | a pad's kind is never Keyboard |
| PlayerInputDevices.XboxWins | src/InputDisplay/Inputs/PlayerInputDevice.cs:77-90 | "xbox" in the lower-cased name gives Xbox |
| PlayerInputDevices.AliasMakesPlayStation | src/InputDisplay/Inputs/PlayerInputDevice.cs:70-83 | without "xbox", a PlayStation alias gives PlayStation, even when "switch" or "nintendo" also occurs |
| PlayerInputDevices.SwitchMakesNintendo | src/InputDisplay/Inputs/PlayerInputDevice.cs:85-86 | without "xbox" or an alias, "switch" or "nintendo" gives Nintendo |
| PlayerInputDevices.UnknownIsXbox | src/InputDisplay/Inputs/PlayerInputDevice.cs:77-90 | a name matching no rule gives Xbox |
| PlayerInputDevices.KindIgnoresCase | src/InputDisplay/Inputs/PlayerInputDevice.cs:79 | the kind does not depend on the letter case of the name |
| PlayerInputDevices.AdapterNamedForBothIsXbox | src/InputDisplay/Inputs/PlayerInputDevice.cs:79-89 | "ps4 xbox adapter" is Xbox |
| PlayerInputDevices.DualSenseIsPlayStation | src/InputDisplay/Inputs/PlayerInputDevice.cs:70-83 | "dualsense ps5" is PlayStation |
| PlayerInputDevices.SwitchIsNintendo | src/InputDisplay/Inputs/PlayerInputDevice.cs:85-86 | "switch" is Nintendo |
| PlayerInputDevices.NoAliasWithoutYOrDigit | src/InputDisplay/Inputs/PlayerInputDevice.cs:70-75 | a name without 'y' and without any of the digits 1 to 6 matches no PlayStation alias |
| PlayerInputDevices.PlayerInputDevice.constructor | src/InputDisplay/Inputs/PlayerInputDevice.cs:6-14 | a pad device with the given slot and capabilities, no state yet and a fresh keyboard map at its defaults |
| PlayerInputDevices.PlayerInputDevice.FromKeyboard | src/InputDisplay/Inputs/PlayerInputDevice.cs:18-27 | slot One, no capabilities and the given map; identifier and name are "Keyboard"; connected; kind Keyboard |
| PlayerInputDevices.PlayerInputDevice.Disconnect | src/InputDisplay/Inputs/PlayerInputDevice.cs:35 | the state becomes None; the device stays connected exactly when it is the keyboard |
| PlayerInputDevices.PlayerInputDevice.GetKind | src/InputDisplay/Inputs/PlayerInputDevice.cs:94 | Keyboard exactly for the keyboard, else the kind of the pad's name |
| PlayerInputDevices.PlayerInputDevice.TryRemapKeyboardFor | src/InputDisplay/Inputs/PlayerInputDevice.cs:92 | a pad answers false and changes nothing; the keyboard answers true exactly when one key is pressed, and learns as DetectUpdate does |
| PlayerInputDevices.FirstDown | src/InputDisplay/Inputs/PlayerInputDevice.cs:48-60 | None exactly for a disconnected pad or when no listed value is down; otherwise a listed value that is down |
| PlayerInputDevices.GetAnyButtonAnswersWhenConnected | src/InputDisplay/Inputs/PlayerInputDevice.cs:48-60 | as written, `GetAnyButton` answers exactly for a connected pad, and then with `None` |
| PlayerInputDevices.GetAnyFlagIff | src/InputDisplay/Inputs/PlayerInputDevice.cs:48-60 | the scan without `None` answers exactly when the pad is connected and some control is down |
| PlayerInputDevices.FirstAnswering | src/InputDisplay/Inputs/PlayerInputDevice.cs:128-130 | as written, the pad taken is the first connected one, or none when no pad is connected |
| PlayerInputDevices.IdlePadTakenAsWritten | src/InputDisplay/Inputs/PlayerInputDevice.cs:48-60 | with an idle first pad and a second pressing A, the code as written takes the first and the intended rule the second |
| PlayerInputDevices.FirstWithButton | src/InputDisplay/Inputs/PlayerInputDevice.cs:128-130 | the first pad with a button down, or none when there is no such pad |
| PlayerInputDevices.SelectInRange | src/InputDisplay/Inputs/PlayerInputDevice.cs:122-136 | a chosen pad is one of the connected pads |
| PlayerInputDevices.SoleUnpressedPadChosen | src/InputDisplay/Inputs/PlayerInputDevice.cs:122-136 | a single connected pad is chosen even with nothing pressed |
| PlayerInputDevices.PadChosenIffFirstPressed | src/InputDisplay/Inputs/PlayerInputDevice.cs:122-136 | with several pads, a pad is chosen exactly when it is the first with a button down |
| PlayerInputDevices.KeyboardChosenIff | src/InputDisplay/Inputs/PlayerInputDevice.cs:122-136 | the keyboard is chosen exactly when no pad qualifies and a key is down |
| PlayerInputDevices.NothingChosenIff | src/InputDisplay/Inputs/PlayerInputDevice.cs:122-136 | nothing is chosen exactly when no pad qualifies and no key is down |
| PlayerInputDevices.DetectPress | src/InputDisplay/Inputs/PlayerInputDevice.cs:122-136 | returns the device Select picks, with the intended `GetAnyButton` (HasButtonDown) |
| ColorUtil.ToHex | src/InputDisplay/Util/ColorUtil.cs:7-8 | six upper-case hex digits, two per channel, each pair reading back to the channel's value; alpha is not written |
| ColorUtil.FromHex | src/InputDisplay/Util/ColorUtil.cs:11-27 | the colour is always opaque |
| ColorUtil.FromHexToHex | src/InputDisplay/Util/ColorUtil.cs:7-21 | reading back a formatted colour gives the same red, green and blue, fully opaque |
| ColorUtil.HashIgnored | src/InputDisplay/Util/ColorUtil.cs:13 | a leading '#' makes no difference |
| ColorUtil.CaseIgnored | src/InputDisplay/Util/ColorUtil.cs:13 | lower-casing the code makes no difference |
| ColorUtil.ShortCodeIsPink | src/InputDisplay/Util/ColorUtil.cs:16-26 | a code shorter than six digits gives pink |
| ColorUtil.BadPairIsPink | src/InputDisplay/Util/ColorUtil.cs:16-26 | a pair that is not hex gives pink |
| ColorUtil.TailIgnored | src/InputDisplay/Util/ColorUtil.cs:17-19 | characters after the sixth digit are ignored |
| ColorUtil.SpacePaddedDigit | src/InputDisplay/Util/ColorUtil.cs:17-19 | a pair of one hex digit and a space parses to that digit |
| ColorUtil.ParseHex2 | src/InputDisplay/Util/ColorUtil.cs:17-19 | a pair parses to its value in 0..255 |
| ContentPath.NonBlank | src/InputDisplay/Util/ContentPath.cs:9 | keeps only non-blank segments, never more than there were |
| ContentPath.CombineOutcome | src/InputDisplay/Util/ContentPath.cs:5-11 | a single segment comes back verbatim; None exactly for no segments or two or more all blank; otherwise the result holds no '/' |
| ContentPath.CombineNotBlank | src/InputDisplay/Util/ContentPath.cs:8-11 | with two or more segments, one of them non-blank, the result exists and is not blank |
| ContentPath.BlankSegmentsIgnored | src/InputDisplay/Util/ContentPath.cs:9 | with two or more segments, inserting a blank segment anywhere changes nothing |
| ContentPath.CombineTwo | src/InputDisplay/Util/ContentPath.cs:8-11 | two plain names are joined by one backslash, with every '/' turned into '\' |
| BitmapFonts.PaddingRoundTrip | src/InputDisplay/Util/BitmapFont.cs:159-167 | setting the padding from its own text restores the four values |
| BitmapFonts.PaddingExtraPartsIgnored | src/InputDisplay/Util/BitmapFont.cs:162-167 | parts after the fourth are ignored |
| BitmapFonts.SpacingRoundTrip | src/InputDisplay/Util/BitmapFont.cs:173-181 | setting the spacing from its own text restores both values |
| BitmapFonts.SpacingExtraPartsIgnored | src/InputDisplay/Util/BitmapFont.cs:176-180 | parts after the second are ignored |
| BitmapFonts.TooFewParts | src/InputDisplay/Util/BitmapFont.cs:162-180 | fewer than four parts give no padding, and fewer than two give no spacing |
| BitmapFonts.NumberAloneIsNoSpacing | src/InputDisplay/Util/BitmapFont.cs:176-180 | a single number is not a valid spacing |
| BitmapFonts.FontInfo.constructor | src/InputDisplay/Util/BitmapFont.cs:156-170 | padding and spacing start at zero |
| BitmapFonts.FontInfo.Padding | src/InputDisplay/Util/BitmapFont.cs:161 | the text parses back to the stored padding |
| BitmapFonts.FontInfo.Spacing | src/InputDisplay/Util/BitmapFont.cs:175 | the text parses back to the stored spacing |
| BitmapFonts.FontInfo.SetPadding | src/InputDisplay/Util/BitmapFont.cs:162-167 | succeeds exactly when the text parses; then the padding is the parsed value, else unchanged |
| BitmapFonts.FontInfo.SetSpacing | src/InputDisplay/Util/BitmapFont.cs:176-180 | succeeds exactly when the text parses; then the spacing is the parsed value, else unchanged |
| BitmapFonts.CharTableMeaning | src/InputDisplay/Util/BitmapFont.cs:71-75 | the keys are exactly the glyphs' character codes; with distinct codes each glyph is found under its own |
| BitmapFonts.MaxWidth | src/InputDisplay/Util/BitmapFont.cs:78 | at least every glyph's width, and equal to one of them |
| BitmapFonts.MaxHeight | src/InputDisplay/Util/BitmapFont.cs:79 | at least every glyph's height, and equal to one of them |
| BitmapFonts.NewFontRenderer | src/InputDisplay/Util/BitmapFont.cs:66-81 | Some exactly for a non-empty font with distinct codes; then the table is CharTable and the letter size is the largest width and height |
| BitmapFonts.LoadedGlyphsFound | src/InputDisplay/Util/BitmapFont.cs:71-75 | every glyph of a loaded font can be found by its character code |
| BitmapFonts.WrappedIdsCollide | src/InputDisplay/Util/BitmapFont.cs:73 | ids 65 and 65601 give the same character |
| Text.ContainsIff | src/InputDisplay/Inputs/PlayerInputDevice.cs:80-85 | `Contains` holds exactly when the text occurs at some position |
| Text.ReplaceRemoves | src/InputDisplay/Util/ContentPath.cs:11 | after replacing a character it no longer occurs, and every other character is kept |
| Text.IntToStringRoundTrip | src/InputDisplay/Util/BitmapFont.cs:161-181 | parsing the text of a 32-bit integer gives it back |
| Text.SplitJoin | src/InputDisplay/Util/BitmapFont.cs:161-181 | splitting joined parts that hold no separator gives the parts back |

## Left out

- Drawing is not modelled because it is rendering: `Draw` methods, `MeasureString`, texture loading, and the positions and sizes of what is drawn.
- Loading fonts from XML files (`FontFile`) is not modelled because it is file I/O; glyphs are a parameter.
- `FontInfo`'s other properties are not modelled because the code never uses their values.
- `OutlineBitmapFont` is not modelled because it only draws.
- The font's letter size is a pair of floats in the source; the model uses integers because nothing else is computed with it.
- `BitmapFonts.FontInfo.SetPadding`: a malformed number throws in the source; the model reports failure and leaves the font unchanged.
- Case mapping covers ASCII letters only, because culture-specific case rules are outside the model.
- Formatting and parsing of numbers assume the invariant culture.
- `Path.Combine` is modelled by the Windows rule: an empty side gives the other side, a rooted second side replaces the first, and a separator is inserted unless one is already there.
- The theme configuration tables (button images, macros, direction names) are parameters of the model, not literal data, because they are configuration.
- The number of history lines follows from the window height and the texture size, with floating point in the source; the model takes it as an integer parameter.
- Settings (SOCD mode, enabled sticks, shading, holding) are passed to each call rather than read from a shared settings object.
- `InputMaps.ButtonMap.Reset`: the source copies the current values of the shared default map, and the model uses the declared defaults; they agree as long as the shared default is never modified.
- The left and right stick clicks are given their own bits in the button model.
- Polling the hardware is not modelled because it is I/O: MonoGame's pad and keyboard state reads, `GetPadState` and `Update` of the device classes, the list of connected pads and whether several are connected. These are parameters.
- `GetAnyButton` scans the values of MonoGame's `Buttons` enumeration, which the model lists with `None` first and then the single flags in ascending value; only `None` being first affects anything proved. The device selection uses the intended rule ("connected and some control down"), not the code as written; see "## Findings".
- `ThemeCycles.ThemeCycle.StartAt`: the source finds themes by reference equality, and the model uses value equality; two equal themes at different positions would be found at the first one.
- The capacity argument given to lists is left out because it does not change behaviour.
- A character id is converted to a 16-bit character code by taking it modulo 65536, as a cast to `char` does.
- `InputBuffer.Update` calls `GameInput.Update` with three arguments, while `GameInput.Update` declares two; the model passes the SOCD mode, the stick settings and the map chosen by `GetMappingOrDefault` explicitly.
- Exceptions are modelled as `None` or a false result.
- `InputMap.Contains` and `InputMap.AddGamePad` are not modelled because they only manage the dictionary of per-device maps.
- The source's documentation says SOCD cleaning never leaves both directions of an axis held. The model follows the code, which under last-priority can keep both (`Socd.LastPriorityMayKeepBoth`).
- The keyboard's Right key is learnt from the d-pad or the right stick, not from the left stick's right direction; the model follows the code (`KeyboardMaps.LeftStickRightTeachesNothing`).
- The button map of the source has fields for the eight attack buttons only; the model adds the two stick clicks with the defaults `LeftStick` and `RightStick`, which `Get` and `Set` never touch.
- `Cycles.Cycle.Current`: the source indexes the list directly and throws when the index is off the list; the model returns `None`.
- The texture name of a stick direction is the numpad digit's text (`NumpadNotationString`). The direction theme's switch mixes the integer `NumpadNotation` constants with `null` and passes the result to a string test, which does not type-check as written; the model takes the text, the evident intent.

## Findings

| source | as written | input that shows it | evidently intended | confidence | as-written member | corrected member |
|---|---|---|---|---|---|---|
| src/InputDisplay/Inputs/PlayerInputDevice.cs:48-60 | `GetAnyButton` scans every enumeration value, `None` included; `IsButtonDown(None)` holds on every pad, so it never returns null for a connected pad and `DetectPress` (lines 128-130) takes the first connected pad | two connected pads, auto-select off, nothing down on the first and A down on the second | the first pad with some control down, here the second | not executed; rests on MonoGame's `IsButtonDown` testing that all the given flags are down | PlayerInputDevices.IdlePadTakenAsWritten | PlayerInputDevices.GetAnyFlagIff |
