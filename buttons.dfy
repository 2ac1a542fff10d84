/**
 * The two flag enumerations of the input core, `ButtonName` and `Direction`,
 * and the numpad notation that names the nine stick positions 1..9.
 */
module Buttons {
  import Text

  // ---------------------------------------------------------------------
  // ButtonName: a 16-bit flag set (the source declares it as `short`).

  type ButtonName = bv16

  const NoButton: ButtonName := 0
  const LP: ButtonName := 1 << 1
  const MP: ButtonName := 1 << 2
  const HP: ButtonName := 1 << 3
  const PP: ButtonName := 1 << 4
  const LK: ButtonName := 1 << 5
  const MK: ButtonName := 1 << 6
  const HK: ButtonName := 1 << 7
  const KK: ButtonName := 1 << 8
  /** The stick-click buttons the input snapshot tracks; two bits no other name uses. */
  const LS: ButtonName := 1 << 9
  const RS: ButtonName := 1 << 10

  /** The eight attack buttons, in declaration order. */
  const AttackButtons: seq<ButtonName> := [LP, MP, HP, PP, LK, MK, HK, KK]

  /** Every single-button name, in declaration order. */
  const AllButtons: seq<ButtonName> := AttackButtons + [LS, RS]

  /** The eight attack buttons are bits 1..8, one bit each, and bit 0 is never used. */
  lemma {:induction false} AttackButtonLayout()
    ensures forall i | 0 <= i < |AttackButtons| :: AttackButtons[i] == 1 << (i + 1)
    ensures forall i, j | 0 <= i < j < |AllButtons| :: AllButtons[i] & AllButtons[j] == 0
    ensures forall i | 0 <= i < |AllButtons| :: AllButtons[i] & 1 == 0 && AllButtons[i] != NoButton
  {
  }

  // ---------------------------------------------------------------------
  // Direction: a byte flag set.

  type Direction = bv8

  const Neutral: Direction := 0
  const Up: Direction := 1 << 0
  const Down: Direction := 1 << 1
  const Forward: Direction := 1 << 2
  const Backward: Direction := 1 << 3
  const UpForward: Direction := Up | Forward
  const UpBackward: Direction := Up | Backward
  const DownForward: Direction := Down | Forward
  const DownBackward: Direction := Down | Backward

  /** `Enum.HasFlag`: every bit of `flag` is set in `d`. */
  predicate HasFlag(d: Direction, flag: Direction)
  {
    d & flag == flag
  }

  /** The nine named directions: neutral, the four cardinals and the four diagonals. */
  predicate IsCanonical(d: Direction)
  {
    d == Neutral || d == Up || d == Down || d == Forward || d == Backward
    || d == UpForward || d == UpBackward || d == DownForward || d == DownBackward
  }

  // ---------------------------------------------------------------------
  // NumpadNotation

  const NumpadDownBackward: int := 1
  const NumpadDown: int := 2
  const NumpadDownForward: int := 3
  const NumpadBackward: int := 4
  const NumpadNeutral: int := 5
  const NumpadForward: int := 6
  const NumpadUpBackward: int := 7
  const NumpadUp: int := 8
  const NumpadUpForward: int := 9

  /** `NumpadNotation.From`: the numpad digit of a direction; anything unnamed reads as neutral. */
  function From(d: Direction): (n: int)
    ensures 1 <= n <= 9
    ensures !IsCanonical(d) ==> n == NumpadNeutral
    ensures n == NumpadNeutral <==> !IsCanonical(d) || d == Neutral
  {
    if d == Up then NumpadUp
    else if d == Down then NumpadDown
    else if d == Forward then NumpadForward
    else if d == Backward then NumpadBackward
    else if d == UpForward then NumpadUpForward
    else if d == UpBackward then NumpadUpBackward
    else if d == DownForward then NumpadDownForward
    else if d == DownBackward then NumpadDownBackward
    else NumpadNeutral
  }

  /** `NumpadNotation.ToDirection`: the direction of a numpad digit; 5 and anything outside 1..9 is neutral. */
  function ToDirection(n: int): (d: Direction)
    ensures IsCanonical(d)
    ensures d == Neutral <==> n == NumpadNeutral || n < 1 || n > 9
  {
    if n == NumpadUp then Up
    else if n == NumpadDown then Down
    else if n == NumpadForward then Forward
    else if n == NumpadBackward then Backward
    else if n == NumpadUpForward then UpForward
    else if n == NumpadUpBackward then UpBackward
    else if n == NumpadDownBackward then DownBackward
    else if n == NumpadDownForward then DownForward
    else Neutral
  }

  /** The two conversions are inverse on the nine named directions and on the digits 1..9. */
  lemma NumpadRoundTrip(d: Direction, n: int)
    ensures IsCanonical(d) ==> ToDirection(From(d)) == d
    ensures 1 <= n <= 9 ==> From(ToDirection(n)) == n
  {
  }

  // ---------------------------------------------------------------------
  // NumpadNotationString: the decimal rendering of each numpad constant.

  function NumpadString(n: int): string
    requires 1 <= n <= 9
  {
    Text.NatToString(n)
  }

  lemma NumpadStrings()
    ensures NumpadString(NumpadDownBackward) == "1" && NumpadString(NumpadDown) == "2"
    ensures NumpadString(NumpadDownForward) == "3" && NumpadString(NumpadBackward) == "4"
    ensures NumpadString(NumpadNeutral) == "5" && NumpadString(NumpadForward) == "6"
    ensures NumpadString(NumpadUpBackward) == "7" && NumpadString(NumpadUp) == "8"
    ensures NumpadString(NumpadUpForward) == "9"
  {
  }
}
