/**
 * One line of the history: a frozen controller state, how many frames it
 * was held, and the buttons it shows once macros are expanded.
 */
module InputEntries {
  import opened GameInputs
  import B = Buttons
  import Themes

  const MaxHoldingFrames: int := 99

  /** The hold counter after one more equivalent frame: one more, up to 99. */
  function NextHoldingFrames(frames: int): (r: int)
    ensures 1 <= frames <= MaxHoldingFrames ==> 1 <= r <= MaxHoldingFrames
    ensures frames < MaxHoldingFrames ==> r == frames + 1
    ensures frames >= MaxHoldingFrames - 1 ==> r == MaxHoldingFrames
  {
    if frames + 1 < MaxHoldingFrames then frames + 1 else MaxHoldingFrames
  }

  /** The elements of a list of button names. */
  function Elems(s: seq<B.ButtonName>): set<B.ButtonName>
  {
    set i | 0 <= i < |s| :: s[i]
  }

  /** The names a macro expansion shows: an empty expansion shows the button itself. */
  function ShownNames(name: B.ButtonName, expansion: seq<B.ButtonName>): seq<B.ButtonName>
  {
    if expansion == [] then [name] else expansion
  }

  /** What drawing collects: buttons drawn as held, as pressed, those drawn from the
      fallback theme, and every button to draw. */
  datatype Collected = Collected(holding: set<B.ButtonName>, pressed: set<B.ButtonName>,
                                 fallback: set<B.ButtonName>, current: set<B.ButtonName>)

  const NothingCollected: Collected := Collected({}, {}, {}, {})

  /** `CheckButton` on what has been collected so far: an active button adds the
      names of its expansion, marked held or pressed by its status when shading is
      on; an empty expansion is the button itself, recorded as a fallback. */
  function Check(c: Collected, button: Button, name: B.ButtonName,
                 expansion: seq<B.ButtonName>, shadowHolding: bool): Collected
  {
    if !button.Active() then c
    else
      var names := Elems(ShownNames(name, expansion));
      Collected(
        c.holding + (if shadowHolding && button.Status == Holding then names else {}),
        c.pressed + (if shadowHolding && button.Status == ButtonStatus.Pressed then names else {}),
        c.fallback + (if expansion == [] then {name} else {}),
        c.current + names)
  }

  /** The number of checks `DrawButtons` makes. */
  const CheckCount: nat := 10

  /** The button and name of `DrawButtons`'s check number `k`, in the source's
      order LP, MP, LP, MP, HP, PP, LK, MK, HK, KK. */
  function Checked(s: State, k: nat): (Button, B.ButtonName)
    requires k < CheckCount
  {
    if k == 0 || k == 2 then (s.LP, B.LP)
    else if k == 1 || k == 3 then (s.MP, B.MP)
    else if k == 4 then (s.HP, B.HP)
    else if k == 5 then (s.PP, B.PP)
    else if k == 6 then (s.LK, B.LK)
    else if k == 7 then (s.MK, B.MK)
    else if k == 8 then (s.HK, B.HK)
    else (s.KK, B.KK)
  }

  /** The collection after the first `n` checks, starting from nothing. */
  function CollectFirst(s: State, theme: Themes.Theme, macros: Themes.Macros, shadowHolding: bool, n: nat): Collected
    requires n <= CheckCount
  {
    if n == 0 then NothingCollected
    else
      var (button, name) := Checked(s, n - 1);
      Check(CollectFirst(s, theme, macros, shadowHolding, n - 1), button, name,
            theme.GetMacroWith(name, macros), shadowHolding)
  }

  /** `DrawButtons`'s collection: every check made, in order. */
  function Collect(s: State, theme: Themes.Theme, macros: Themes.Macros, shadowHolding: bool): Collected
  {
    CollectFirst(s, theme, macros, shadowHolding, CheckCount)
  }

  /** The names one attack button contributes when its status is in `statuses`. */
  function Contribution(b: Button, name: B.ButtonName, theme: Themes.Theme, macros: Themes.Macros,
                        statuses: set<ButtonStatus>): set<B.ButtonName>
  {
    if b.Status in statuses then Elems(ShownNames(name, theme.GetMacroWith(name, macros))) else {}
  }

  /** The union of the eight attack buttons' contributions. */
  function Contributions(s: State, theme: Themes.Theme, macros: Themes.Macros,
                         statuses: set<ButtonStatus>): set<B.ButtonName>
  {
    Contribution(s.LP, B.LP, theme, macros, statuses) + Contribution(s.MP, B.MP, theme, macros, statuses)
    + Contribution(s.HP, B.HP, theme, macros, statuses) + Contribution(s.PP, B.PP, theme, macros, statuses)
    + Contribution(s.LK, B.LK, theme, macros, statuses) + Contribution(s.MK, B.MK, theme, macros, statuses)
    + Contribution(s.HK, B.HK, theme, macros, statuses) + Contribution(s.KK, B.KK, theme, macros, statuses)
  }

  /** The button itself when it is down and its expansion is empty. */
  function FallbackOf(b: Button, name: B.ButtonName, theme: Themes.Theme, macros: Themes.Macros): set<B.ButtonName>
  {
    if b.Active() && theme.GetMacroWith(name, macros) == [] then {name} else {}
  }

  /** The attack buttons that are down and whose expansion is empty. */
  function Fallbacks(s: State, theme: Themes.Theme, macros: Themes.Macros): set<B.ButtonName>
  {
    FallbackOf(s.LP, B.LP, theme, macros) + FallbackOf(s.MP, B.MP, theme, macros)
    + FallbackOf(s.HP, B.HP, theme, macros) + FallbackOf(s.PP, B.PP, theme, macros)
    + FallbackOf(s.LK, B.LK, theme, macros) + FallbackOf(s.MK, B.MK, theme, macros)
    + FallbackOf(s.HK, B.HK, theme, macros) + FallbackOf(s.KK, B.KK, theme, macros)
  }

  /** The four parts of a collection. */
  datatype Part = DrawnPart | HeldPart | PressedPart | FallbackPart

  function PartOf(c: Collected, p: Part): set<B.ButtonName>
  {
    match p
    case DrawnPart => c.current
    case HeldPart => c.holding
    case PressedPart => c.pressed
    case FallbackPart => c.fallback
  }

  /** What one attack button puts in each part. */
  function Added(p: Part, b: Button, name: B.ButtonName, theme: Themes.Theme, macros: Themes.Macros,
                 shadowHolding: bool): set<B.ButtonName>
  {
    match p
    case DrawnPart => Contribution(b, name, theme, macros, {ButtonStatus.Pressed, Holding})
    case HeldPart => if shadowHolding then Contribution(b, name, theme, macros, {Holding}) else {}
    case PressedPart => if shadowHolding then Contribution(b, name, theme, macros, {ButtonStatus.Pressed}) else {}
    case FallbackPart => FallbackOf(b, name, theme, macros)
  }

  /** One check adds the button's contribution to each part of the collection. */
  lemma CheckAdds(c: Collected, b: Button, name: B.ButtonName, theme: Themes.Theme,
                  macros: Themes.Macros, shadowHolding: bool, p: Part)
    ensures PartOf(Check(c, b, name, theme.GetMacroWith(name, macros), shadowHolding), p)
            == PartOf(c, p) + Added(p, b, name, theme, macros, shadowHolding)
  {
  }

  /** The union of the first `n` sets of `a`. */
  function UnionFirst<T>(a: seq<set<T>>, n: nat): set<T>
    requires n <= |a|
  {
    if n == 0 then {} else UnionFirst(a, n - 1) + a[n - 1]
  }

  /** Ten additions in the order of the checks, the first two repeated, make
      the union of the eight different ones. */
  lemma RepeatsAbsorbed<T>(a: seq<set<T>>, lp: set<T>, mp: set<T>, hp: set<T>, pp: set<T>,
                           lk: set<T>, mk: set<T>, hk: set<T>, kk: set<T>)
    requires |a| == CheckCount && a[0] == lp && a[1] == mp && a[2] == lp && a[3] == mp
    requires a[4] == hp && a[5] == pp && a[6] == lk && a[7] == mk && a[8] == hk && a[9] == kk
    ensures UnionFirst(a, CheckCount) == lp + mp + hp + pp + lk + mk + hk + kk
  {
    assert UnionFirst(a, 4) == lp + mp by {
      assert UnionFirst(a, 2) == lp + mp by {
        assert UnionFirst(a, 1) == lp by {
          assert UnionFirst(a, 0) == {};
        }
      }
      assert UnionFirst(a, 3) == lp + mp;
    }
    assert UnionFirst(a, 6) == lp + mp + hp + pp by {
      assert UnionFirst(a, 5) == lp + mp + hp;
    }
    assert UnionFirst(a, 8) == lp + mp + hp + pp + lk + mk by {
      assert UnionFirst(a, 7) == lp + mp + hp + pp + lk;
    }
    assert UnionFirst(a, 9) == lp + mp + hp + pp + lk + mk + hk;
  }

  /** What each check adds to a part, in the order of the checks. */
  function Additions(s: State, theme: Themes.Theme, macros: Themes.Macros, shadowHolding: bool,
                     p: Part): seq<set<B.ButtonName>>
  {
    seq(CheckCount, k requires 0 <= k < CheckCount =>
      Added(p, Checked(s, k).0, Checked(s, k).1, theme, macros, shadowHolding))
  }

  /** One more check adds its button's contribution to each part. */
  lemma CollectStep(s: State, theme: Themes.Theme, macros: Themes.Macros, shadowHolding: bool, p: Part, n: nat)
    requires 0 < n <= CheckCount
    ensures PartOf(CollectFirst(s, theme, macros, shadowHolding, n), p)
            == PartOf(CollectFirst(s, theme, macros, shadowHolding, n - 1), p)
               + Additions(s, theme, macros, shadowHolding, p)[n - 1]
  {
    CheckAdds(CollectFirst(s, theme, macros, shadowHolding, n - 1), Checked(s, n - 1).0, Checked(s, n - 1).1,
              theme, macros, shadowHolding, p);
  }

  /** Each part after `n` checks is what those checks add. */
  lemma {:induction false} CollectFirstPart(s: State, theme: Themes.Theme, macros: Themes.Macros,
                                            shadowHolding: bool, p: Part, n: nat)
    requires n <= CheckCount
    ensures PartOf(CollectFirst(s, theme, macros, shadowHolding, n), p)
            == UnionFirst(Additions(s, theme, macros, shadowHolding, p), n)
  {
    if n > 0 {
      CollectFirstPart(s, theme, macros, shadowHolding, p, n - 1);
      CollectStep(s, theme, macros, shadowHolding, p, n);
    }
  }

  /** The additions of the checks, one by one. */
  lemma AdditionsOrder(s: State, theme: Themes.Theme, macros: Themes.Macros, shadowHolding: bool, p: Part)
    ensures |Additions(s, theme, macros, shadowHolding, p)| == CheckCount
    ensures Additions(s, theme, macros, shadowHolding, p)[0] == Added(p, s.LP, B.LP, theme, macros, shadowHolding)
    ensures Additions(s, theme, macros, shadowHolding, p)[1] == Added(p, s.MP, B.MP, theme, macros, shadowHolding)
    ensures Additions(s, theme, macros, shadowHolding, p)[2] == Added(p, s.LP, B.LP, theme, macros, shadowHolding)
    ensures Additions(s, theme, macros, shadowHolding, p)[3] == Added(p, s.MP, B.MP, theme, macros, shadowHolding)
    ensures Additions(s, theme, macros, shadowHolding, p)[4] == Added(p, s.HP, B.HP, theme, macros, shadowHolding)
    ensures Additions(s, theme, macros, shadowHolding, p)[5] == Added(p, s.PP, B.PP, theme, macros, shadowHolding)
    ensures Additions(s, theme, macros, shadowHolding, p)[6] == Added(p, s.LK, B.LK, theme, macros, shadowHolding)
    ensures Additions(s, theme, macros, shadowHolding, p)[7] == Added(p, s.MK, B.MK, theme, macros, shadowHolding)
    ensures Additions(s, theme, macros, shadowHolding, p)[8] == Added(p, s.HK, B.HK, theme, macros, shadowHolding)
    ensures Additions(s, theme, macros, shadowHolding, p)[9] == Added(p, s.KK, B.KK, theme, macros, shadowHolding)
  {
  }

  /** Each part of the collection is the union of what the eight attack buttons
      put in it. */
  lemma CollectPart(s: State, theme: Themes.Theme, macros: Themes.Macros, shadowHolding: bool, p: Part)
    ensures PartOf(Collect(s, theme, macros, shadowHolding), p)
            == Added(p, s.LP, B.LP, theme, macros, shadowHolding) + Added(p, s.MP, B.MP, theme, macros, shadowHolding)
               + Added(p, s.HP, B.HP, theme, macros, shadowHolding) + Added(p, s.PP, B.PP, theme, macros, shadowHolding)
               + Added(p, s.LK, B.LK, theme, macros, shadowHolding) + Added(p, s.MK, B.MK, theme, macros, shadowHolding)
               + Added(p, s.HK, B.HK, theme, macros, shadowHolding) + Added(p, s.KK, B.KK, theme, macros, shadowHolding)
  {
    CollectFirstPart(s, theme, macros, shadowHolding, p, CheckCount);
    AdditionsOrder(s, theme, macros, shadowHolding, p);
    RepeatsAbsorbed(Additions(s, theme, macros, shadowHolding, p),
                    Added(p, s.LP, B.LP, theme, macros, shadowHolding), Added(p, s.MP, B.MP, theme, macros, shadowHolding), Added(p, s.HP, B.HP, theme, macros, shadowHolding), Added(p, s.PP, B.PP, theme, macros, shadowHolding),
                    Added(p, s.LK, B.LK, theme, macros, shadowHolding), Added(p, s.MK, B.MK, theme, macros, shadowHolding), Added(p, s.HK, B.HK, theme, macros, shadowHolding), Added(p, s.KK, B.KK, theme, macros, shadowHolding));
  }

  /**
   * What the collection means, whatever the order and the repeated LP and MP
   * checks: the buttons drawn are the expansions of the eight attack buttons that
   * are down.
   */
  lemma CollectCurrent(s: State, theme: Themes.Theme, macros: Themes.Macros, shadowHolding: bool)
    ensures Collect(s, theme, macros, shadowHolding).current
            == Contributions(s, theme, macros, {ButtonStatus.Pressed, Holding})
  {
    CollectPart(s, theme, macros, shadowHolding, DrawnPart);
  }

  /** The held marks are the expansions of the held buttons, and only with shading on. */
  lemma CollectHolding(s: State, theme: Themes.Theme, macros: Themes.Macros, shadowHolding: bool)
    ensures Collect(s, theme, macros, shadowHolding).holding
            == (if shadowHolding then Contributions(s, theme, macros, {Holding}) else {})
  {
    CollectPart(s, theme, macros, shadowHolding, HeldPart);
  }

  /** The pressed marks are the expansions of the buttons pressed on this frame, and
      only with shading on. */
  lemma CollectPressed(s: State, theme: Themes.Theme, macros: Themes.Macros, shadowHolding: bool)
    ensures Collect(s, theme, macros, shadowHolding).pressed
            == (if shadowHolding then Contributions(s, theme, macros, {ButtonStatus.Pressed}) else {})
  {
    CollectPart(s, theme, macros, shadowHolding, PressedPart);
  }

  /** The fallbacks are the buttons down whose expansion is empty. */
  lemma CollectFallback(s: State, theme: Themes.Theme, macros: Themes.Macros, shadowHolding: bool)
    ensures Collect(s, theme, macros, shadowHolding).fallback == Fallbacks(s, theme, macros)
  {
    CollectPart(s, theme, macros, shadowHolding, FallbackPart);
  }

  /** The first `n` checks never look at the stick clicks. */
  lemma {:induction false} StickClicksIgnored(s: State, ls: Button, rs: Button, theme: Themes.Theme,
                                              macros: Themes.Macros, shadowHolding: bool, n: nat)
    requires n <= CheckCount
    ensures CollectFirst(s.(LS := ls, RS := rs), theme, macros, shadowHolding, n)
            == CollectFirst(s, theme, macros, shadowHolding, n)
  {
    if n > 0 {
      StickClicksIgnored(s, ls, rs, theme, macros, shadowHolding, n - 1);
    }
  }

  /** The stick clicks never show: the collection ignores LS and RS. */
  lemma StickClicksNotCollected(s: State, ls: Button, rs: Button, theme: Themes.Theme,
                                macros: Themes.Macros, shadowHolding: bool)
    ensures Collect(s.(LS := ls, RS := rs), theme, macros, shadowHolding) == Collect(s, theme, macros, shadowHolding)
  {
    StickClicksIgnored(s, ls, rs, theme, macros, shadowHolding, CheckCount);
  }

  /** Checks of buttons that are all up collect nothing. */
  lemma {:induction false} NothingDownCollectsNothing(s: State, theme: Themes.Theme, macros: Themes.Macros,
                                                      shadowHolding: bool, n: nat)
    requires s.NoneActive() && n <= CheckCount
    ensures CollectFirst(s, theme, macros, shadowHolding, n) == NothingCollected
  {
    if n > 0 {
      NothingDownCollectsNothing(s, theme, macros, shadowHolding, n - 1);
    }
  }

  /** A state with no attack button down shows nothing. */
  lemma NothingDownShowsNothing(s: State, theme: Themes.Theme, macros: Themes.Macros, shadowHolding: bool)
    requires s.NoneActive()
    ensures Collect(s, theme, macros, shadowHolding) == NothingCollected
  {
    NothingDownCollectsNothing(s, theme, macros, shadowHolding, CheckCount);
  }

  /** `InputEntry`: one line of the history. */
  class InputEntry {
    var HoldingFrames: int
    const State: State
    var holding: set<B.ButtonName>
    var pressed: set<B.ButtonName>
    var fallback: set<B.ButtonName>
    var currentButtons: set<B.ButtonName>

    /** The hold counter stays within 1..99. */
    predicate Valid()
      reads this
    {
      1 <= HoldingFrames <= MaxHoldingFrames
    }

    /** A new line has been seen for one frame. */
    constructor (state: State)
      ensures State == state && HoldingFrames == 1 && Valid()
      ensures holding == {} && pressed == {} && fallback == {} && currentButtons == {}
    {
      State := state;
      HoldingFrames := 1;
      holding, pressed, fallback, currentButtons := {}, {}, {}, {};
    }

    function Collection(): Collected
      reads this
    {
      Collected(holding, pressed, fallback, currentButtons)
    }

    /** `IncrementFrame`: one more frame, saturating at 99. */
    method IncrementFrame()
      modifies this`HoldingFrames
      ensures HoldingFrames == NextHoldingFrames(old(HoldingFrames))
      ensures old(Valid()) ==> Valid()
    {
      HoldingFrames := if HoldingFrames + 1 < MaxHoldingFrames then HoldingFrames + 1 else MaxHoldingFrames;
    }

    /** Whether a drawn button is shaded: held and not also just pressed. */
    predicate Shaded(btn: B.ButtonName)
      reads this
    {
      btn in holding && btn !in pressed
    }

    /** `CheckButton`: adds an active button's expansion to the collection. */
    method CheckButton(button: Button, name: B.ButtonName, theme: Themes.Theme,
                       macros: Themes.Macros, shadowHolding: bool)
      modifies this`holding, this`pressed, this`fallback, this`currentButtons
      ensures Collection() == Check(old(Collection()), button, name, theme.GetMacroWith(name, macros), shadowHolding)
    {
      if !button.Active() {
        return;
      }
      var expansion := theme.GetMacroWith(name, macros);
      var buttons := expansion;
      if |buttons| == 0 {
        fallback := fallback + {name};
        buttons := [name];
      }
      ghost var h0, p0, c0 := holding, pressed, currentButtons;
      var index := 0;
      while index < |buttons|
        invariant 0 <= index <= |buttons|
        invariant currentButtons == c0 + Elems(buttons[..index])
        invariant holding == h0 + (if shadowHolding && button.Status == Holding then Elems(buttons[..index]) else {})
        invariant pressed == p0 + (if shadowHolding && button.Status == ButtonStatus.Pressed then Elems(buttons[..index]) else {})
        invariant fallback == old(fallback) + (if expansion == [] then {name} else {})
      {
        var btn := buttons[index];
        ElemsSnoc(buttons, index);
        if shadowHolding {
          match button.Status
          case Holding =>
            holding := holding + {btn};
          case Pressed =>
            pressed := pressed + {btn};
          case _ =>
        }
        currentButtons := currentButtons + {btn};
        index := index + 1;
      }
      assert buttons[..index] == buttons;
    }

    /** `DrawButtons`'s collection step: the sets are emptied and every attack button
        is checked, LP and MP twice as the source does. */
    method DrawButtons(theme: Themes.Theme, macros: Themes.Macros, shadowHolding: bool)
      modifies this`holding, this`pressed, this`fallback, this`currentButtons
      ensures Collection() == Collect(State, theme, macros, shadowHolding)
    {
      holding, pressed, fallback, currentButtons := {}, {}, {}, {};
      CheckButton(State.LP, B.LP, theme, macros, shadowHolding);
      assert Collection() == CollectFirst(State, theme, macros, shadowHolding, 1);
      CheckButton(State.MP, B.MP, theme, macros, shadowHolding);
      assert Collection() == CollectFirst(State, theme, macros, shadowHolding, 2);
      CheckButton(State.LP, B.LP, theme, macros, shadowHolding);
      assert Collection() == CollectFirst(State, theme, macros, shadowHolding, 3);
      CheckButton(State.MP, B.MP, theme, macros, shadowHolding);
      assert Collection() == CollectFirst(State, theme, macros, shadowHolding, 4);
      CheckButton(State.HP, B.HP, theme, macros, shadowHolding);
      assert Collection() == CollectFirst(State, theme, macros, shadowHolding, 5);
      CheckButton(State.PP, B.PP, theme, macros, shadowHolding);
      assert Collection() == CollectFirst(State, theme, macros, shadowHolding, 6);
      CheckButton(State.LK, B.LK, theme, macros, shadowHolding);
      assert Collection() == CollectFirst(State, theme, macros, shadowHolding, 7);
      CheckButton(State.MK, B.MK, theme, macros, shadowHolding);
      assert Collection() == CollectFirst(State, theme, macros, shadowHolding, 8);
      CheckButton(State.HK, B.HK, theme, macros, shadowHolding);
      assert Collection() == CollectFirst(State, theme, macros, shadowHolding, 9);
      CheckButton(State.KK, B.KK, theme, macros, shadowHolding);
      assert Collection() == CollectFirst(State, theme, macros, shadowHolding, 10);
    }
  }

  lemma ElemsSnoc(s: seq<B.ButtonName>, i: nat)
    requires i < |s|
    ensures Elems(s[..i + 1]) == Elems(s[..i]) + {s[i]}
  {
    assert s[..i + 1] == s[..i] + [s[i]];
  }

  /** After drawing, a button is shaded exactly when shading is on and it is shown
      only by held buttons, never by one pressed on this frame. */
  lemma ShadedMeaning(s: State, theme: Themes.Theme, macros: Themes.Macros, shadowHolding: bool, btn: B.ButtonName)
    ensures var c := Collect(s, theme, macros, shadowHolding);
            (btn in c.holding && btn !in c.pressed) <==>
            shadowHolding && btn in Contributions(s, theme, macros, {Holding})
            && btn !in Contributions(s, theme, macros, {ButtonStatus.Pressed})
  {
    CollectHolding(s, theme, macros, shadowHolding);
    CollectPressed(s, theme, macros, shadowHolding);
  }
}
