/**
 * Browsing the built-in themes: one cursor over the stick themes and one over the
 * button themes, moved independently.
 */
module ThemeCycles {
  import opened Wrappers
  import opened Cycles
  import Themes

  /** `IndexOf`: the first position holding `x`, or -1. */
  function IndexOf<T(==)>(values: seq<T>, x: T): (i: int)
    ensures -1 <= i < |values|
    ensures i == -1 <==> x !in values
    ensures 0 <= i ==> values[i] == x && forall j | 0 <= j < i :: values[j] != x
  {
    if values == [] then -1
    else if values[0] == x then 0
    else
      var rest := IndexOf(values[1..], x);
      if rest == -1 then -1 else rest + 1
  }

  /** The theme a pair of table entries makes: names and parts from the same
      entries, and no fallback. */
  function ThemeOf(stick: (string, Themes.DirectionTheme), buttons: (string, Themes.FaceButtons)): Themes.Theme
  {
    Themes.Theme(buttons.0, stick.0, buttons.1, stick.1, None)
  }

  /** The values of a table, in order. */
  function Values<V>(table: seq<(string, V)>): (r: seq<V>)
    ensures |r| == |table| && forall i | 0 <= i < |table| :: r[i] == table[i].1
  {
    if table == [] then [] else [table[0].1] + Values(table[1..])
  }

  /** `ThemeCycle`: the stick and button theme tables, each with its cursor. */
  class ThemeCycle {
    const stick: Cycle<(string, Themes.DirectionTheme)>
    const buttons: Cycle<(string, Themes.FaceButtons)>

    /** Both cursors are on an entry. */
    predicate Valid()
      reads this, stick, buttons
    {
      stick.Valid() && buttons.Valid()
    }

    /** Both cursors start on the first entry of their table. */
    constructor (directionMap: seq<(string, Themes.DirectionTheme)>, buttonMap: seq<(string, Themes.FaceButtons)>)
      ensures stick.values == directionMap && buttons.values == buttonMap
      ensures stick.currentIndex == 0 && buttons.currentIndex == 0
      ensures fresh(stick) && fresh(buttons)
      ensures directionMap != [] && buttonMap != [] ==> Valid()
    {
      stick := new Cycle(directionMap, 0);
      buttons := new Cycle(buttonMap, 0);
    }

    /** The theme under both cursors, if both are on an entry. */
    function Selected(): (r: Option<Themes.Theme>)
      reads this, stick, buttons
      ensures r.Some? <==> Valid()
      ensures r.Some? ==> r.value.Fallback.None?
    {
      if Valid() then Some(ThemeOf(stick.values[stick.currentIndex], buttons.values[buttons.currentIndex]))
      else None
    }

    /** `StartAt`: each cursor moves to the first entry holding the theme's part,
        and stays where it is when there is none. */
    method StartAt(theme: Themes.Theme)
      modifies stick, buttons
      ensures var s := IndexOf(Values(stick.values), theme.Stick);
              stick.currentIndex == if s == -1 then old(stick.currentIndex) else s
      ensures var b := IndexOf(Values(buttons.values), theme.Buttons);
              buttons.currentIndex == if b == -1 then old(buttons.currentIndex) else b
      ensures old(Valid()) ==> Valid()
    {
      var s := IndexOf(Values(stick.values), theme.Stick);
      if s != -1 {
        stick.SetIndex(s);
      }
      var b := IndexOf(Values(buttons.values), theme.Buttons);
      if b != -1 {
        buttons.SetIndex(b);
      }
    }

    /** `NextStick`: the next stick theme with the current button theme. */
    method NextStick() returns (r: Option<Themes.Theme>)
      requires stick as object != buttons
      modifies stick
      ensures stick.currentIndex == Wrap(old(stick.currentIndex) + 1, |stick.values|)
      ensures r == Selected()
      ensures old(Valid()) ==> r.Some?
    {
      var next := stick.Next();
      r := Pair();
    }

    /** `PrevStick`: the previous stick theme with the current button theme. */
    method PrevStick() returns (r: Option<Themes.Theme>)
      requires stick as object != buttons
      modifies stick
      ensures stick.currentIndex == Wrap(old(stick.currentIndex) - 1, |stick.values|)
      ensures r == Selected()
      ensures old(Valid()) ==> r.Some?
    {
      var previous := stick.Previous();
      r := Pair();
    }

    /** `NextButtons`: the next button theme with the current stick theme. */
    method NextButtons() returns (r: Option<Themes.Theme>)
      requires stick as object != buttons
      modifies buttons
      ensures buttons.currentIndex == Wrap(old(buttons.currentIndex) + 1, |buttons.values|)
      ensures r == Selected()
      ensures old(Valid()) ==> r.Some?
    {
      var next := buttons.Next();
      r := Pair();
    }

    /** `PrevButtons`: the previous button theme with the current stick theme. */
    method PrevButtons() returns (r: Option<Themes.Theme>)
      requires stick as object != buttons
      modifies buttons
      ensures buttons.currentIndex == Wrap(old(buttons.currentIndex) - 1, |buttons.values|)
      ensures r == Selected()
      ensures old(Valid()) ==> r.Some?
    {
      var previous := buttons.Previous();
      r := Pair();
    }

    /** The theme built from both cursors' current entries; `None` when either
        cursor is off its table, as `Current` then throws. */
    method Pair() returns (r: Option<Themes.Theme>)
      ensures r == Selected()
    {
      var s := stick.Current();
      var b := buttons.Current();
      if s.None? || b.None? {
        return None;
      }
      return Some(ThemeOf(s.value, b.value));
    }
  }

  /** A value present in a table is found by `IndexOf` at an entry holding it. */
  lemma IndexOfFinds<V>(table: seq<(string, V)>, v: V)
    requires v in Values(table)
    ensures var i := IndexOf(Values(table), v);
            0 <= i < |table| && table[i].1 == v
  {
    var i := IndexOf(Values(table), v);
    assert Values(table)[i] == table[i].1;
  }

  /** `StartAt` finds a theme whose parts are in both tables: the cursors then
      select a theme with the same stick and button parts. */
  lemma StartAtFinds(stickTable: seq<(string, Themes.DirectionTheme)>, buttonTable: seq<(string, Themes.FaceButtons)>,
                     theme: Themes.Theme)
    requires theme.Stick in Values(stickTable) && theme.Buttons in Values(buttonTable)
    ensures var s := IndexOf(Values(stickTable), theme.Stick);
            var b := IndexOf(Values(buttonTable), theme.Buttons);
            && 0 <= s < |stickTable| && 0 <= b < |buttonTable|
            && ThemeOf(stickTable[s], buttonTable[b]).Stick == theme.Stick
            && ThemeOf(stickTable[s], buttonTable[b]).Buttons == theme.Buttons
  {
    IndexOfFinds(stickTable, theme.Stick);
    IndexOfFinds(buttonTable, theme.Buttons);
  }
}
