/**
 * The .NET string and number-parsing behaviour the repository relies on:
 * whitespace tests, ASCII case mapping, substring search, character
 * replacement, decimal rendering and parsing, and splitting on a separator.
 */
module Text {
  import opened Wrappers

  /** `char.IsWhiteSpace`: the Unicode space separators plus the control
      characters U+0009..U+000D, U+0085 and the line/paragraph separators. */
  predicate IsWhiteSpace(c: char)
  {
    var n := c as int;
    n == 0x20 || (0x09 <= n <= 0x0D) || n == 0x85 || n == 0xA0 || n == 0x1680
    || (0x2000 <= n <= 0x200A) || n == 0x2028 || n == 0x2029 || n == 0x202F
    || n == 0x205F || n == 0x3000
  }

  /** `string.IsNullOrWhiteSpace` for a non-null string: empty or all whitespace. */
  predicate IsBlank(s: string)
  {
    forall i | 0 <= i < |s| :: IsWhiteSpace(s[i])
  }

  function ToLowerChar(c: char): char
  {
    if 'A' <= c <= 'Z' then (c as int + 32) as char else c
  }

  function ToUpperChar(c: char): char
  {
    if 'a' <= c <= 'z' then (c as int - 32) as char else c
  }

  /** `ToLowerInvariant`, on the ASCII letters. */
  function ToLower(s: string): (r: string)
    ensures |r| == |s|
  {
    seq(|s|, i requires 0 <= i < |s| => ToLowerChar(s[i]))
  }

  /** `ToUpperInvariant`, on the ASCII letters. */
  function ToUpper(s: string): (r: string)
    ensures |r| == |s|
  {
    seq(|s|, i requires 0 <= i < |s| => ToUpperChar(s[i]))
  }

  /** `string.Contains(sub)`, written as a scan over the suffixes of `s`. */
  predicate Contains(s: string, sub: string)
    decreases |s|
  {
    sub <= s || (|s| > 0 && Contains(s[1..], sub))
  }

  /** The scan finds `sub` exactly when `sub` occurs at some position of `s`. */
  lemma {:induction false} ContainsIff(s: string, sub: string)
    ensures Contains(s, sub) <==> exists i | 0 <= i <= |s| :: sub <= s[i..]
    decreases |s|
  {
    if sub <= s {
      assert s[0..] == s;
    } else if |s| == 0 {
      assert forall i | 0 <= i <= |s| :: s[i..] == s;
    } else {
      ContainsIff(s[1..], sub);
      if Contains(s[1..], sub) {
        var i :| 0 <= i <= |s[1..]| && sub <= s[1..][i..];
        assert s[1..][i..] == s[i + 1..];
      } else {
        forall i | 0 <= i <= |s| ensures !(sub <= s[i..]) {
          if i > 0 {
            assert s[1..][i - 1..] == s[i..];
          } else {
            assert s[0..] == s;
          }
        }
      }
    }
  }

  /** `string.Replace(from, to)` for single characters. */
  function Replace(s: string, from: char, to: char): (r: string)
    ensures |r| == |s|
  {
    seq(|s|, i requires 0 <= i < |s| => if s[i] == from then to else s[i])
  }

  /** After replacing every `from` by a different character, no `from` is left,
      and every other character is where it was. */
  lemma ReplaceRemoves(s: string, from: char, to: char)
    requires from != to
    ensures from !in Replace(s, from, to)
    ensures forall i | 0 <= i < |s| && s[i] != from :: Replace(s, from, to)[i] == s[i]
  {
    var r := Replace(s, from, to);
    forall i | 0 <= i < |r| ensures r[i] != from {
    }
  }

  /** Replacing a character that does not occur changes nothing. */
  lemma ReplaceAbsent(s: string, from: char, to: char)
    requires from !in s
    ensures Replace(s, from, to) == s
  {
  }

  /** Replacing by a non-white character keeps a non-blank string non-blank. */
  lemma ReplaceKeepsNotBlank(s: string, from: char, to: char)
    requires !IsWhiteSpace(to) && !IsBlank(s)
    ensures !IsBlank(Replace(s, from, to))
  {
    var i :| 0 <= i < |s| && !IsWhiteSpace(s[i]);
    assert !IsWhiteSpace(Replace(s, from, to)[i]);
  }

  // ---------------------------------------------------------------------
  // Decimal numbers

  predicate IsDigit(c: char)
  {
    '0' <= c <= '9'
  }

  predicate AllDigits(s: string)
  {
    forall i | 0 <= i < |s| :: IsDigit(s[i])
  }

  function DigitChar(d: nat): (c: char)
    requires d < 10
    ensures IsDigit(c)
  {
    (48 + d) as char
  }

  function DigitValue(c: char): (d: nat)
    requires IsDigit(c)
    ensures d < 10
  {
    c as int - 48
  }

  /** The invariant-culture rendering of a natural number: its decimal digits, no leading zero. */
  function NatToString(n: nat): (r: string)
    ensures |r| > 0 && AllDigits(r)
    ensures |r| > 1 ==> r[0] != '0'
    decreases n
  {
    if n < 10 then [DigitChar(n)] else NatToString(n / 10) + [DigitChar(n % 10)]
  }

  /** The value of a string of decimal digits. */
  function DigitsValue(s: string): nat
    requires AllDigits(s)
  {
    if s == [] then 0 else 10 * DigitsValue(s[..|s| - 1]) + DigitValue(s[|s| - 1])
  }

  /** Reading back the rendering of `n` gives `n`. */
  lemma {:induction false} DigitsValueOfNatToString(n: nat)
    ensures DigitsValue(NatToString(n)) == n
    decreases n
  {
    var r := NatToString(n);
    if n >= 10 {
      DigitsValueOfNatToString(n / 10);
      assert r[..|r| - 1] == NatToString(n / 10);
    }
  }

  /** `int.ToString()` in the invariant culture. */
  function IntToString(x: int): string
  {
    if x < 0 then "-" + NatToString(-x) else NatToString(x)
  }

  const MinInt32: int := -0x8000_0000
  const MaxInt32: int := 0x7FFF_FFFF

  type Int32 = x: int | MinInt32 <= x <= MaxInt32

  /** The white space `NumberStyles.AllowLeadingWhite`/`AllowTrailingWhite` accept. */
  predicate IsNumberWhite(c: char)
  {
    c == ' ' || '\t' <= c <= '\r'
  }

  function TrimStartWhite(s: string): (r: string)
    ensures |r| <= |s|
    ensures |r| > 0 ==> !IsNumberWhite(r[0])
    decreases |s|
  {
    if |s| > 0 && IsNumberWhite(s[0]) then TrimStartWhite(s[1..]) else s
  }

  function TrimEndWhite(s: string): (r: string)
    ensures |r| <= |s|
    ensures |r| > 0 ==> !IsNumberWhite(r[|r| - 1])
    decreases |s|
  {
    if |s| > 0 && IsNumberWhite(s[|s| - 1]) then TrimEndWhite(s[..|s| - 1]) else s
  }

  function TrimNumberWhite(s: string): string
  {
    TrimEndWhite(TrimStartWhite(s))
  }

  /**
   * `Convert.ToInt32(string)` (`int.Parse` with `NumberStyles.Integer`):
   * optional white space around an optional sign and at least one digit,
   * and a value that fits in 32 bits. `None` stands for the FormatException
   * or OverflowException it throws otherwise.
   */
  function ParseInt32(s: string): Option<Int32>
  {
    ParseTrimmed(TrimNumberWhite(s))
  }

  /** The sign-and-digits part of `ParseInt32`, once the white space is gone. */
  function ParseTrimmed(t: string): Option<Int32>
  {
    var negative := |t| > 0 && t[0] == '-';
    var digits := if |t| > 0 && (t[0] == '-' || t[0] == '+') then t[1..] else t;
    if |digits| == 0 || !AllDigits(digits) then None
    else
      var magnitude: int := DigitsValue(digits);
      var v := if negative then -magnitude else magnitude;
      if MinInt32 <= v <= MaxInt32 then Some(v) else None
  }

  lemma TrimUntouched(s: string)
    requires |s| > 0 && !IsNumberWhite(s[0]) && !IsNumberWhite(s[|s| - 1])
    ensures TrimNumberWhite(s) == s
  {
    assert TrimStartWhite(s) == s;
  }

  lemma ParsePositive(digits: string)
    requires |digits| > 0 && AllDigits(digits)
    ensures var v: int := DigitsValue(digits);
      ParseInt32(digits) == (if v <= MaxInt32 then Some(v) else None)
  {
    TrimUntouched(digits);
  }

  lemma TrimNegativeUntouched(digits: string)
    requires |digits| > 0 && AllDigits(digits)
    ensures TrimNumberWhite("-" + digits) == "-" + digits
  {
    var s := "-" + digits;
    assert s[|s| - 1] == digits[|digits| - 1];
    TrimUntouched(s);
  }

  lemma ParseNegative(digits: string)
    requires |digits| > 0 && AllDigits(digits)
    ensures var v: int := DigitsValue(digits);
      ParseInt32("-" + digits) == (if MinInt32 <= -v then Some(-v) else None)
  {
    TrimNegativeUntouched(digits);
    SignedDigits(digits);
  }

  /** A minus sign before digits negates their value. */
  lemma SignedDigits(digits: string)
    requires |digits| > 0 && AllDigits(digits)
    ensures var v: int := DigitsValue(digits);
      ParseTrimmed("-" + digits) == (if MinInt32 <= -v then Some(-v) else None)
  {
    var s := "-" + digits;
    assert s[0] == '-' && s[1..] == digits;
  }

  /** Parsing the rendering of any 32-bit integer gives it back. */
  lemma IntToStringRoundTrip(x: Int32)
    ensures ParseInt32(IntToString(x)) == Some(x)
  {
    var magnitude: nat := if x < 0 then -(x as int) else x as int;
    DigitsValueOfNatToString(magnitude);
    if x < 0 {
      ParseNegative(NatToString(magnitude));
    } else {
      ParsePositive(NatToString(magnitude));
    }
  }

  // ---------------------------------------------------------------------
  // Splitting and joining

  /** `string.Split(sep)`: every piece between separators, empty ones included. */
  function Split(s: string, sep: char): (parts: seq<string>)
    ensures |parts| >= 1
    decreases |s|
  {
    if |s| == 0 then [""]
    else
      var rest := Split(s[1..], sep);
      if s[0] == sep then [""] + rest else [[s[0]] + rest[0]] + rest[1..]
  }

  /** The pieces glued back with the separator between them. */
  function Join(parts: seq<string>, sep: char): string
  {
    if |parts| == 0 then ""
    else if |parts| == 1 then parts[0]
    else parts[0] + [sep] + Join(parts[1..], sep)
  }

  lemma {:induction false} SplitWithoutSeparator(a: string, sep: char)
    requires sep !in a
    ensures Split(a, sep) == [a]
    decreases |a|
  {
    if |a| > 0 {
      SplitWithoutSeparator(a[1..], sep);
      assert [a[0]] + a[1..] == a;
    }
  }

  lemma {:induction false} SplitAfterPiece(a: string, rest: string, sep: char)
    requires sep !in a
    ensures Split(a + [sep] + rest, sep) == [a] + Split(rest, sep)
    decreases |a|
  {
    var s := a + [sep] + rest;
    if |a| == 0 {
      assert s[1..] == rest;
    } else {
      assert s[1..] == a[1..] + [sep] + rest;
      SplitAfterPiece(a[1..], rest, sep);
      assert [a[0]] + a[1..] == a;
    }
  }

  /** Splitting what `Join` produced gives the pieces back, provided no piece
      contains the separator. */
  lemma {:induction false} SplitJoin(parts: seq<string>, sep: char)
    requires |parts| >= 1
    requires forall i | 0 <= i < |parts| :: sep !in parts[i]
    ensures Split(Join(parts, sep), sep) == parts
    decreases |parts|
  {
    if |parts| == 1 {
      SplitWithoutSeparator(parts[0], sep);
    } else {
      SplitJoin(parts[1..], sep);
      SplitAfterPiece(parts[0], Join(parts[1..], sep), sep);
      assert [parts[0]] + parts[1..] == parts;
    }
  }
}
