/**
 * Which pad control drives each logical button, per controller, and how
 * rebinding a button keeps the controls distinct by taking the control
 * away from the button that held it.
 */
module InputMaps {
  import opened Wrappers
  import opened XnaInput
  import Text
  import B = Buttons

  /** The position of one of the eight attack buttons in `B.AttackButtons`. */
  function AttackIndex(name: B.ButtonName): (i: nat)
    requires name in B.AttackButtons
    ensures i < |B.AttackButtons| && B.AttackButtons[i] == name
  {
    if name == B.LP then 0
    else if name == B.MP then 1
    else if name == B.HP then 2
    else if name == B.PP then 3
    else if name == B.LK then 4
    else if name == B.MK then 5
    else if name == B.HK then 6
    else 7
  }

  /** The declared initializers of the eight attack-button fields, in `B.AttackButtons` order. */
  const DefaultCodes: seq<Buttons> := [{X}, {Y}, {RightShoulder}, {LeftShoulder}, {A}, {B}, {RightTrigger}, {LeftTrigger}]

  /** The first position holding `code`, if any. */
  function FirstIndex(codes: seq<Buttons>, code: Buttons): (r: Option<nat>)
    ensures r.None? <==> code !in codes
    ensures r.Some? ==> r.value < |codes| && codes[r.value] == code
                        && forall k | 0 <= k < r.value :: codes[k] != code
  {
    if |codes| == 0 then None
    else if codes[0] == code then Some(0)
    else
      match FirstIndex(codes[1..], code)
      case None => None
      case Some(j) => Some(j + 1)
  }

  /** No two buttons share a control other than `None`. */
  predicate Distinct(codes: seq<Buttons>)
  {
    forall j, k | 0 <= j < k < |codes| :: codes[j] != {} ==> codes[j] != codes[k]
  }

  /**
   * The eight attack-button codes after binding position `i` to `code`: if
   * position `i` already has it, nothing changes; otherwise a non-empty code
   * first held by another button is taken from it (that button becomes
   * `None`), and position `i` gets it.
   */
  function SetCodes(codes: seq<Buttons>, i: nat, code: Buttons): seq<Buttons>
    requires i < |codes|
  {
    if codes[i] == code then codes
    else
      var cleared :=
        match FirstIndex(codes, code)
        case Some(j) => if code != {} && j != i then codes[j := {}] else codes
        case None => codes;
      cleared[i := code]
  }

  /** Binding a button gives it the control, takes the control away from the first
      other button that had it, and leaves every other button alone. */
  lemma SetCodesEffect(codes: seq<Buttons>, i: nat, code: Buttons)
    requires i < |codes|
    ensures var r := SetCodes(codes, i, code);
            && |r| == |codes| && r[i] == code
            && (codes[i] == code ==> r == codes)
            && forall k | 0 <= k < |codes| && k != i ::
                 r[k] == (if code != {} && codes[i] != code && FirstIndex(codes, code) == Some(k) then {} else codes[k])
  {
  }

  /** Rebinding keeps the controls distinct: if no two buttons shared a control
      before, none do after. */
  lemma SetCodesKeepsDistinct(codes: seq<Buttons>, i: nat, code: Buttons)
    requires i < |codes| && Distinct(codes)
    ensures Distinct(SetCodes(codes, i, code))
  {
    var r := SetCodes(codes, i, code);
    SetCodesEffect(codes, i, code);
    if codes[i] != code && code != {} {
      forall k | 0 <= k < |codes| && k != i ensures r[k] != code {
        if codes[k] == code {
          assert forall m | 0 <= m < k :: codes[m] != code;
          assert FirstIndex(codes, code) == Some(k);
        }
      }
    }
  }

  /** The default map binds eight different controls. */
  lemma DefaultCodesDistinct()
    ensures |DefaultCodes| == |B.AttackButtons| && Distinct(DefaultCodes)
    ensures forall k | 0 <= k < |DefaultCodes| :: DefaultCodes[k] != {}
  {
  }

  /** `InputMap.ButtonMap`: one controller's bindings. */
  class ButtonMap {
    const Name: string
    var LP: Buttons
    var MP: Buttons
    var HP: Buttons
    var PP: Buttons
    var LK: Buttons
    var MK: Buttons
    var HK: Buttons
    var KK: Buttons
    /** The stick-click bindings the input snapshot reads; rebinding covers only the eight. */
    var LS: Buttons
    var RS: Buttons

    /** A map with the declared initial bindings. */
    constructor (name: string)
      ensures Name == name && Codes() == DefaultCodes
      ensures LS == {LeftStick} && RS == {RightStick}
    {
      Name := name;
      LP, MP, HP, PP := {X}, {Y}, {RightShoulder}, {LeftShoulder};
      LK, MK, HK, KK := {A}, {B}, {RightTrigger}, {LeftTrigger};
      LS, RS := {LeftStick}, {RightStick};
    }

    /** The eight attack-button bindings in `B.AttackButtons` order. */
    function Codes(): (codes: seq<Buttons>)
      reads this
      ensures |codes| == |B.AttackButtons|
    {
      [LP, MP, HP, PP, LK, MK, HK, KK]
    }

    /** `Get(ButtonName)`: the binding of an attack button; any other name, `None` and
        chords included, is the ArgumentOutOfRangeException, here `None`. */
    function Get(name: B.ButtonName): (r: Option<Buttons>)
      reads this
      ensures r.Some? <==> name in B.AttackButtons
      ensures r.Some? ==> r.value == Codes()[AttackIndex(name)]
    {
      if name == B.LP then Some(LP)
      else if name == B.MP then Some(MP)
      else if name == B.HP then Some(HP)
      else if name == B.PP then Some(PP)
      else if name == B.LK then Some(LK)
      else if name == B.MK then Some(MK)
      else if name == B.HK then Some(HK)
      else if name == B.KK then Some(KK)
      else None
    }

    /** `Get(Buttons)`: the first attack button, in declaration order, bound to `code`. */
    function Lookup(code: Buttons): (r: Option<B.ButtonName>)
      reads this
      ensures r.None? <==> code !in Codes()
      ensures r.Some? ==> r.value in B.AttackButtons && Codes()[AttackIndex(r.value)] == code
                          && forall k | 0 <= k < AttackIndex(r.value) :: Codes()[k] != code
    {
      if LP == code then Some(B.LP)
      else if MP == code then Some(B.MP)
      else if HP == code then Some(B.HP)
      else if PP == code then Some(B.PP)
      else if LK == code then Some(B.LK)
      else if MK == code then Some(B.MK)
      else if HK == code then Some(B.HK)
      else if KK == code then Some(B.KK)
      else None
    }

    /** `Set`: bind an attack button to `code`, taking the control from the button that
        had it. Any other name is only logged; the map is unchanged. */
    method Set(name: B.ButtonName, code: Buttons)
      modifies this
      ensures LS == old(LS) && RS == old(RS)
      ensures name in B.AttackButtons ==> Codes() == SetCodes(old(Codes()), AttackIndex(name), code)
      ensures name !in B.AttackButtons ==> Codes() == old(Codes())
      decreases if code == {} then 0 else 1, 1
    {
      if name in B.AttackButtons {
        var field := Get(name).value;
        var r := Swap(name, field, code);
        Assign(name, r);
      }
    }

    /** Writes the field of attack button `name`. */
    method Assign(name: B.ButtonName, code: Buttons)
      requires name in B.AttackButtons
      modifies this
      ensures LS == old(LS) && RS == old(RS)
      ensures Codes() == old(Codes())[AttackIndex(name) := code]
    {
      if name == B.LP {
        LP := code;
      } else if name == B.MP {
        MP := code;
      } else if name == B.HP {
        HP := code;
      } else if name == B.PP {
        PP := code;
      } else if name == B.LK {
        LK := code;
      } else if name == B.MK {
        MK := code;
      } else if name == B.HK {
        HK := code;
      } else {
        KK := code;
      }
    }

    /** The local `Swap` of `Set`: returns the new value for `name`'s field, after
        clearing the other button that held `code`, if any. */
    method Swap(name: B.ButtonName, field: Buttons, code: Buttons) returns (r: Buttons)
      requires name in B.AttackButtons && field == Codes()[AttackIndex(name)]
      modifies this
      ensures r == code
      ensures LS == old(LS) && RS == old(RS)
      ensures field == code ==> Codes() == old(Codes())
      ensures field != code ==> Codes()[AttackIndex(name) := code] == SetCodes(old(Codes()), AttackIndex(name), code)
      decreases if code == {} then 0 else 1, 0
    {
      if field == code {
        return field;
      }
      if code != {} {
        var oldField := Lookup(code);
        if oldField.Some? && oldField.value != name {
          Set(oldField.value, {});
        }
      }
      return code;
    }

    /** `Reset`: the eight attack-button bindings go back to the declared initializers. */
    method Reset()
      modifies this
      ensures Codes() == DefaultCodes
      ensures LS == old(LS) && RS == old(RS)
    {
      LP, MP, HP, PP := {X}, {Y}, {RightShoulder}, {LeftShoulder};
      LK, MK, HK, KK := {A}, {B}, {RightTrigger}, {LeftTrigger};
    }
  }

  /** `InputMap`: the bindings of every known controller, by identifier. */
  class InputMap {
    var Maps: map<string, ButtonMap>

    constructor ()
      ensures Maps == map[]
    {
      Maps := map[];
    }

    /** `GetMapping`: nothing for a blank or unknown identifier. */
    function GetMapping(identifier: string): (r: Option<ButtonMap>)
      reads this
      ensures r.None? <==> Text.IsBlank(identifier) || identifier !in Maps
      ensures r.Some? ==> r.value == Maps[identifier]
    {
      if Text.IsBlank(identifier) || identifier !in Maps then None else Some(Maps[identifier])
    }

    /** `GetMappingOrDefault`: the controller's own map, else the shared default one. */
    function GetMappingOrDefault(identifier: string, default: ButtonMap): (r: ButtonMap)
      reads this
      ensures !Text.IsBlank(identifier) && identifier in Maps ==> r == Maps[identifier]
      ensures Text.IsBlank(identifier) || identifier !in Maps ==> r == default
    {
      match GetMapping(identifier)
      case Some(m) => m
      case None => default
    }
  }
}
