/**
 * Colours as the settings store them: six hexadecimal digits RRGGBB, read back
 * case-insensitively with an optional leading '#', and pink when the text is
 * not a colour.
 */
module ColorUtil {
  import opened Wrappers
  import opened Text

  type Byte = x: int | 0 <= x < 256

  /** An RGBA colour, one byte per channel. */
  datatype Color = Color(R: Byte, G: Byte, B: Byte, A: Byte)

  /** `Color.Pink`, the colour an unreadable code gives. */
  const Pink: Color := Color(255, 192, 203, 255)

  predicate IsHexDigit(c: char)
  {
    '0' <= c <= '9' || 'A' <= c <= 'F' || 'a' <= c <= 'f'
  }

  /** The digits the `X2` format writes. */
  predicate IsUpperHexDigit(c: char)
  {
    '0' <= c <= '9' || 'A' <= c <= 'F'
  }

  function HexValue(c: char): (d: nat)
    requires IsHexDigit(c)
    ensures d < 16
  {
    if '0' <= c <= '9' then c as int - '0' as int
    else if 'A' <= c <= 'F' then c as int - 'A' as int + 10
    else c as int - 'a' as int + 10
  }

  /** The upper-case digit for `d`; reading it back gives `d`. */
  function HexDigit(d: nat): (c: char)
    requires d < 16
    ensures IsUpperHexDigit(c) && IsHexDigit(c) && HexValue(c) == d
  {
    if d < 10 then ('0' as int + d) as char else ('A' as int + d - 10) as char
  }

  /** A byte in the `X2` format: two upper-case digits, high nibble first. */
  function Hex2(b: Byte): (s: string)
    ensures |s| == 2 && IsUpperHexDigit(s[0]) && IsUpperHexDigit(s[1])
    ensures HexValue(s[0]) * 16 + HexValue(s[1]) == b
  {
    [HexDigit(b / 16), HexDigit(b % 16)]
  }

  /** `ToHex`: "RRGGBB" in upper-case digits; alpha is not written. */
  function ToHex(c: Color): (s: string)
    ensures |s| == 6 && forall i | 0 <= i < 6 :: IsUpperHexDigit(s[i])
    ensures s[..2] == Hex2(c.R) && s[2..4] == Hex2(c.G) && s[4..6] == Hex2(c.B)
  {
    Hex2(c.R) + Hex2(c.G) + Hex2(c.B)
  }

  predicate AllHex(s: string)
  {
    forall i | 0 <= i < |s| :: IsHexDigit(s[i])
  }

  /** The value of a string of hexadecimal digits. */
  function HexDigitsValue(s: string): nat
    requires AllHex(s)
  {
    if s == [] then 0 else 16 * HexDigitsValue(s[..|s| - 1]) + HexValue(s[|s| - 1])
  }

  /**
   * `byte.Parse(s, NumberStyles.HexNumber)`: white space around at least one
   * hexadecimal digit, no sign and no prefix, and a value below 256. `None`
   * stands for the exception it throws otherwise.
   */
  function ParseHexByte(s: string): Option<Byte>
  {
    var t := TrimNumberWhite(s);
    if |t| == 0 || !AllHex(t) then None
    else
      var v := HexDigitsValue(t);
      if v < 256 then Some(v) else None
  }

  /** `TrimStart(ch)`: every leading `ch` removed. */
  function TrimStartChar(s: string, ch: char): (r: string)
    ensures |r| <= |s| && r == s[|s| - |r|..]
    ensures |r| > 0 ==> r[0] != ch
    ensures forall i | 0 <= i < |s| - |r| :: s[i] == ch
    decreases |s|
  {
    if |s| > 0 && s[0] == ch then TrimStartChar(s[1..], ch) else s
  }

  /** The code `FromHex` reads: the input upper-cased, leading '#'s removed. */
  function ColorCode(value: string): string
  {
    TrimStartChar(ToUpper(value), '#')
  }

  /**
   * `FromHex`: characters [0,2), [2,4) and [4,6) of the code are red, green
   * and blue, alpha is opaque, and anything after them is ignored. A code
   * shorter than six characters or a pair that is not a byte gives pink.
   */
  function FromHex(value: string): (c: Color)
    ensures c.A == 255
  {
    FromCode(ColorCode(value))
  }

  /** The colour a code spells, or pink when one of its three pairs is
      missing or is not a byte. */
  function FromCode(code: string): Color
  {
    if |code| < 6 then Pink
    else
      match (ParseHexByte(code[..2]), ParseHexByte(code[2..4]), ParseHexByte(code[4..6]))
      case (Some(r), Some(g), Some(b)) => Color(r, g, b, 255)
      case _ => Pink
  }

  /** Reading back `Hex2(b)` gives `b`. */
  lemma ParseHex2(b: Byte)
    ensures ParseHexByte(Hex2(b)) == Some(b)
  {
    var s := Hex2(b);
    TrimUntouched(s);
    assert AllHex(s);
    assert s[..1][..0] == [];
    assert HexDigitsValue(s[..1]) == HexValue(s[0]);
    assert HexDigitsValue(s) == 16 * HexValue(s[0]) + HexValue(s[1]);
  }

  /** A pair may be one digit with a space before or after it: `byte.Parse`
      allows white space around the digits. */
  lemma SpacePaddedDigit(d: char)
    requires IsHexDigit(d)
    ensures ParseHexByte([' ', d]) == Some(HexValue(d))
    ensures ParseHexByte([d, ' ']) == Some(HexValue(d))
  {
    assert TrimStartWhite([' ', d]) == [d] by {
      assert [' ', d][1..] == [d];
    }
    assert TrimEndWhite([d, ' ']) == [d] by {
      assert [d, ' '][..1] == [d];
    }
    assert TrimEndWhite([d]) == [d] && TrimStartWhite([d]) == [d];
    assert TrimStartWhite([d, ' ']) == [d, ' '];
    assert TrimNumberWhite([' ', d]) == [d] && TrimNumberWhite([d, ' ']) == [d];
    assert [d][..0] == [];
    assert AllHex([d]) && HexDigitsValue([d]) == HexValue(d);
  }

  /** Upper-casing leaves upper-case hexadecimal digits alone. */
  lemma UpperHexUnchanged(s: string)
    requires forall i | 0 <= i < |s| :: IsUpperHexDigit(s[i])
    ensures ToUpper(s) == s
  {
  }

  /** `FromHex` reads back what `ToHex` wrote, with alpha made opaque. */
  lemma FromHexToHex(c: Color)
    ensures FromHex(ToHex(c)) == Color(c.R, c.G, c.B, 255)
  {
    var s := ToHex(c);
    UpperHexUnchanged(s);
    assert ColorCode(s) == s;
    ParseHex2(c.R);
    ParseHex2(c.G);
    ParseHex2(c.B);
  }

  /** Leading '#'s are ignored. */
  lemma HashIgnored(value: string)
    ensures FromHex("#" + value) == FromHex(value)
  {
    assert ToUpper("#" + value) == "#" + ToUpper(value);
    assert ("#" + ToUpper(value))[1..] == ToUpper(value);
  }

  /** Lower-casing and upper-casing an ASCII letter agree with upper-casing it. */
  lemma UpperOfLower(s: string)
    ensures ToUpper(ToLower(s)) == ToUpper(s)
  {
    forall i | 0 <= i < |s| ensures ToUpper(ToLower(s))[i] == ToUpper(s)[i] {
    }
  }

  /** Letter case does not matter. */
  lemma CaseIgnored(value: string)
    ensures FromHex(ToLower(value)) == FromHex(value)
  {
    UpperOfLower(value);
  }

  /** Too short a code is pink. */
  lemma ShortCodeIsPink(value: string)
    requires |ColorCode(value)| < 6
    ensures FromHex(value) == Pink
  {
  }

  /** A pair that is not a byte makes the whole code pink. */
  lemma BadPairIsPink(code: string, k: nat)
    requires k < 3 && |code| >= 6
    requires ParseHexByte(code[2 * k..2 * k + 2]).None?
    ensures FromCode(code) == Pink
  {
  }

  /** Upper-casing distributes over concatenation. */
  lemma ToUpperAppend(s: string, t: string)
    ensures ToUpper(s + t) == ToUpper(s) + ToUpper(t)
  {
  }

  /** Removing leading `ch`s from `s + t` touches only `s` when `s` keeps a
      character other than `ch`. */
  lemma {:induction false} TrimStartAppend(s: string, t: string, ch: char)
    requires |TrimStartChar(s, ch)| > 0
    ensures TrimStartChar(s + t, ch) == TrimStartChar(s, ch) + t
    decreases |s|
  {
    if s[0] == ch {
      assert (s + t)[1..] == s[1..] + t;
      TrimStartAppend(s[1..], t, ch);
    }
  }

  /** Only the first six characters of a code count. */
  lemma CodeTailIgnored(code: string, tail: string)
    requires |code| >= 6
    ensures FromCode(code + tail) == FromCode(code)
  {
    var longer := code + tail;
    assert longer[..2] == code[..2] && longer[2..4] == code[2..4] && longer[4..6] == code[4..6];
  }

  /** Characters after the sixth of the code are ignored. */
  lemma TailIgnored(value: string, tail: string)
    requires |ColorCode(value)| >= 6
    ensures FromHex(value + tail) == FromHex(value)
  {
    ToUpperAppend(value, tail);
    TrimStartAppend(ToUpper(value), ToUpper(tail), '#');
    CodeTailIgnored(ColorCode(value), ToUpper(tail));
  }
}
