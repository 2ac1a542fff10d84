/**
 * The bitmap-font descriptor and the glyph table built from it: the
 * comma-separated `padding` and `spacing` attributes of the font's info
 * element, and the renderer's character table and letter cell size.
 */
module BitmapFonts {
  import opened Wrappers
  import opened Text

  /** `Rectangle`: the four padding values. */
  datatype Rectangle = Rectangle(X: Int32, Y: Int32, Width: Int32, Height: Int32)

  /** `Point`: the two spacing values. */
  datatype Point = Point(X: Int32, Y: Int32)

  /** The `padding` attribute as written: "x,y,width,height". */
  function FormatPadding(r: Rectangle): string
  {
    Join([IntToString(r.X), IntToString(r.Y), IntToString(r.Width), IntToString(r.Height)], ',')
  }

  /** The `spacing` attribute as written: "x,y". */
  function FormatSpacing(p: Point): string
  {
    Join([IntToString(p.X), IntToString(p.Y)], ',')
  }

  /**
   * Reading the `padding` attribute: the text split on ',', and its first four
   * parts read as 32-bit integers. `None` is the exception thrown when there
   * are fewer than four parts or a part is not a number; further parts are
   * never looked at.
   */
  function ParsePadding(value: string): Option<Rectangle>
  {
    var parts := Split(value, ',');
    if |parts| < 4 then None
    else
      match (ParseInt32(parts[0]), ParseInt32(parts[1]), ParseInt32(parts[2]), ParseInt32(parts[3]))
      case (Some(x), Some(y), Some(w), Some(h)) => Some(Rectangle(x, y, w, h))
      case _ => None
  }

  /** Reading the `spacing` attribute: the first two parts, as for `padding`. */
  function ParseSpacing(value: string): Option<Point>
  {
    var parts := Split(value, ',');
    if |parts| < 2 then None
    else
      match (ParseInt32(parts[0]), ParseInt32(parts[1]))
      case (Some(x), Some(y)) => Some(Point(x, y))
      case _ => None
  }

  /** A rendered integer has no comma in it. */
  lemma NoCommaInNumber(x: int)
    ensures ',' !in IntToString(x)
  {
    var digits := NatToString(if x < 0 then -x else x);
    assert forall i | 0 <= i < |digits| :: digits[i] != ',';
    if x < 0 {
      assert forall i | 0 <= i < |IntToString(x)| :: IntToString(x)[i] != ',' by {
        assert IntToString(x) == "-" + digits;
      }
    }
  }

  /** Splitting joined pieces followed by a separator and more text gives the
      pieces, then the pieces of the rest. */
  lemma {:induction false} SplitJoinThen(parts: seq<string>, rest: string, sep: char)
    requires |parts| >= 1
    requires forall i | 0 <= i < |parts| :: sep !in parts[i]
    ensures Split(Join(parts, sep) + [sep] + rest, sep) == parts + Split(rest, sep)
    decreases |parts|
  {
    if |parts| == 1 {
      SplitAfterPiece(parts[0], rest, sep);
    } else {
      var head, tail := parts[0], Join(parts[1..], sep);
      var after := tail + [sep] + rest;
      assert forall i | 0 <= i < |parts[1..]| :: sep !in parts[1..][i] by {
        forall i | 0 <= i < |parts[1..]| ensures sep !in parts[1..][i] {
          assert parts[1..][i] == parts[i + 1];
        }
      }
      SplitJoinThen(parts[1..], rest, sep);
      assert Join(parts, sep) == head + [sep] + tail;
      assert Join(parts, sep) + [sep] + rest == head + [sep] + after;
      SplitAfterPiece(head, after, sep);
      assert Split(after, sep) == parts[1..] + Split(rest, sep);
      assert [head] + (parts[1..] + Split(rest, sep)) == ([head] + parts[1..]) + Split(rest, sep);
      assert [head] + parts[1..] == parts;
    }
  }

  /** The numbers of a rectangle, rendered: four pieces without a comma. */
  lemma PaddingPieces(r: Rectangle)
    ensures var parts := [IntToString(r.X), IntToString(r.Y), IntToString(r.Width), IntToString(r.Height)];
            forall i | 0 <= i < |parts| :: ',' !in parts[i]
  {
    NoCommaInNumber(r.X);
    NoCommaInNumber(r.Y);
    NoCommaInNumber(r.Width);
    NoCommaInNumber(r.Height);
  }

  /** Writing the padding and reading it back gives the same four values. */
  lemma PaddingRoundTrip(r: Rectangle)
    ensures ParsePadding(FormatPadding(r)) == Some(r)
  {
    PaddingPieces(r);
    SplitJoin([IntToString(r.X), IntToString(r.Y), IntToString(r.Width), IntToString(r.Height)], ',');
    IntToStringRoundTrip(r.X);
    IntToStringRoundTrip(r.Y);
    IntToStringRoundTrip(r.Width);
    IntToStringRoundTrip(r.Height);
  }

  /** Parts after the fourth are ignored, whatever they hold. */
  lemma PaddingExtraPartsIgnored(r: Rectangle, extra: string)
    ensures ParsePadding(FormatPadding(r) + "," + extra) == Some(r)
  {
    var parts := [IntToString(r.X), IntToString(r.Y), IntToString(r.Width), IntToString(r.Height)];
    PaddingPieces(r);
    SplitJoinThen(parts, extra, ',');
    IntToStringRoundTrip(r.X);
    IntToStringRoundTrip(r.Y);
    IntToStringRoundTrip(r.Width);
    IntToStringRoundTrip(r.Height);
  }

  /** Writing the spacing and reading it back gives the same two values. */
  lemma SpacingRoundTrip(p: Point)
    ensures ParseSpacing(FormatSpacing(p)) == Some(p)
  {
    NoCommaInNumber(p.X);
    NoCommaInNumber(p.Y);
    SplitJoin([IntToString(p.X), IntToString(p.Y)], ',');
    IntToStringRoundTrip(p.X);
    IntToStringRoundTrip(p.Y);
  }

  /** Parts after the second are ignored, whatever they hold. */
  lemma SpacingExtraPartsIgnored(p: Point, extra: string)
    ensures ParseSpacing(FormatSpacing(p) + "," + extra) == Some(p)
  {
    NoCommaInNumber(p.X);
    NoCommaInNumber(p.Y);
    SplitJoinThen([IntToString(p.X), IntToString(p.Y)], extra, ',');
    IntToStringRoundTrip(p.X);
    IntToStringRoundTrip(p.Y);
  }

  /** Text with fewer than three commas is not a padding; with none, not a spacing. */
  lemma TooFewParts(value: string)
    ensures |Split(value, ',')| < 4 ==> ParsePadding(value).None?
    ensures |Split(value, ',')| < 2 ==> ParseSpacing(value).None?
  {
  }

  /** A single number is not a spacing: its text has no comma to split on. */
  lemma NumberAloneIsNoSpacing(x: Int32)
    ensures ParseSpacing(IntToString(x)).None?
  {
    NoCommaInNumber(x);
    SplitWithoutSeparator(IntToString(x), ',');
  }

  /** `FontInfo`: the two attributes whose text is parsed into private fields. */
  class FontInfo {
    var padding: Rectangle
    var spacing: Point

    /** All zero, as a new `FontInfo` starts. */
    constructor ()
      ensures padding == Rectangle(0, 0, 0, 0) && spacing == Point(0, 0)
    {
      padding := Rectangle(0, 0, 0, 0);
      spacing := Point(0, 0);
    }

    /** The `Padding` getter; its text reads back as the stored padding. */
    function Padding(): (s: string)
      reads this
      ensures ParsePadding(s) == Some(padding)
    {
      PaddingRoundTrip(padding);
      FormatPadding(padding)
    }

    /** The `Spacing` getter; its text reads back as the stored spacing. */
    function Spacing(): (s: string)
      reads this
      ensures ParseSpacing(s) == Some(spacing)
    {
      SpacingRoundTrip(spacing);
      FormatSpacing(spacing)
    }

    /** The `Padding` setter; `false` is the exception, which leaves the padding as it was. */
    method SetPadding(value: string) returns (ok: bool)
      modifies this`padding
      ensures ok <==> ParsePadding(value).Some?
      ensures padding == if ok then ParsePadding(value).value else old(padding)
    {
      var parsed := ParsePadding(value);
      if parsed.None? {
        return false;
      }
      padding := parsed.value;
      return true;
    }

    /** The `Spacing` setter; `false` is the exception, which leaves the spacing as it was. */
    method SetSpacing(value: string) returns (ok: bool)
      modifies this`spacing
      ensures ok <==> ParseSpacing(value).Some?
      ensures spacing == if ok then ParseSpacing(value).value else old(spacing)
    {
      var parsed := ParseSpacing(value);
      if parsed.None? {
        return false;
      }
      spacing := parsed.value;
      return true;
    }
  }

  // ---------------------------------------------------------------------
  // The glyph table

  /** A UTF-16 code unit, the key type of the character table. */
  type CharCode = x: int | 0 <= x < 0x1_0000

  /** `FontChar`: one glyph of the descriptor. */
  datatype FontChar = FontChar(Id: Int32, X: Int32, Y: Int32, Width: Int32, Height: Int32,
                               XOffset: Int32, YOffset: Int32, XAdvance: Int32, Page: Int32, Channel: Int32)

  /** `(char)Id`: the low sixteen bits of the id. */
  function CodeOf(c: FontChar): CharCode
  {
    c.Id % 0x1_0000
  }

  /** No two glyphs share a key. */
  predicate DistinctCodes(chars: seq<FontChar>)
  {
    forall i, j | 0 <= i < j < |chars| :: CodeOf(chars[i]) != CodeOf(chars[j])
  }

  /** The table the glyphs make when each is added under its key, in order. */
  function CharTable(chars: seq<FontChar>): map<CharCode, FontChar>
  {
    if chars == [] then map[]
    else CharTable(chars[..|chars| - 1])[CodeOf(chars[|chars| - 1]) := chars[|chars| - 1]]
  }

  /** The table's keys are exactly the glyphs' keys, and with distinct keys each
      glyph is found under its own. */
  lemma {:induction false} CharTableMeaning(chars: seq<FontChar>)
    ensures forall k :: k in CharTable(chars) <==> exists i | 0 <= i < |chars| :: CodeOf(chars[i]) == k
    ensures DistinctCodes(chars) ==> forall i | 0 <= i < |chars| :: CharTable(chars)[CodeOf(chars[i])] == chars[i]
  {
    if chars != [] {
      var init := chars[..|chars| - 1];
      CharTableMeaning(init);
      assert forall i | 0 <= i < |init| :: init[i] == chars[i];
    }
  }

  /** `Max(x => x.Width)`: the widest glyph's width. */
  function MaxWidth(chars: seq<FontChar>): (w: int)
    requires chars != []
    ensures forall i | 0 <= i < |chars| :: chars[i].Width <= w
    ensures exists i | 0 <= i < |chars| :: chars[i].Width == w
  {
    if |chars| == 1 then chars[0].Width
    else
      var rest := MaxWidth(chars[1..]);
      assert forall i | 1 <= i < |chars| :: chars[i] == chars[1..][i - 1];
      if chars[0].Width >= rest then chars[0].Width else rest
  }

  /** `Max(x => x.Height)`: the tallest glyph's height. */
  function MaxHeight(chars: seq<FontChar>): (h: int)
    requires chars != []
    ensures forall i | 0 <= i < |chars| :: chars[i].Height <= h
    ensures exists i | 0 <= i < |chars| :: chars[i].Height == h
  {
    if |chars| == 1 then chars[0].Height
    else
      var rest := MaxHeight(chars[1..]);
      assert forall i | 1 <= i < |chars| :: chars[i] == chars[1..][i - 1];
      if chars[0].Height >= rest then chars[0].Height else rest
  }

  /** `FontRenderer`: the glyphs by key, and the cell every letter is measured in. */
  class FontRenderer {
    var Chars: map<CharCode, FontChar>
    const LetterSize: (int, int)

    constructor (chars: map<CharCode, FontChar>, letterSize: (int, int))
      ensures Chars == chars && LetterSize == letterSize
    {
      Chars := chars;
      LetterSize := letterSize;
    }
  }

  /**
   * The `FontRenderer` constructor: every glyph is added under its key, and
   * the letter cell is the largest width by the largest height. `None` is the
   * exception it throws: on a repeated key, or on an empty glyph list.
   */
  method NewFontRenderer(fontChars: seq<FontChar>) returns (r: Option<FontRenderer>)
    ensures r.Some? <==> fontChars != [] && DistinctCodes(fontChars)
    ensures r.Some? ==> fresh(r.value) && r.value.Chars == CharTable(fontChars)
    ensures r.Some? ==> r.value.LetterSize == (MaxWidth(fontChars), MaxHeight(fontChars))
  {
    var chars: map<CharCode, FontChar> := map[];
    var i := 0;
    while i < |fontChars|
      invariant 0 <= i <= |fontChars|
      invariant chars == CharTable(fontChars[..i])
      invariant DistinctCodes(fontChars[..i])
    {
      var code := CodeOf(fontChars[i]);
      CharTableMeaning(fontChars[..i]);
      if code in chars {
        var j :| 0 <= j < i && CodeOf(fontChars[..i][j]) == code;
        assert CodeOf(fontChars[j]) == CodeOf(fontChars[i]);
        return None;
      }
      assert fontChars[..i + 1][..i] == fontChars[..i];
      chars := chars[code := fontChars[i]];
      i := i + 1;
    }
    assert fontChars[..i] == fontChars;
    if fontChars == [] {
      return None;
    }
    var renderer := new FontRenderer(chars, (MaxWidth(fontChars), MaxHeight(fontChars)));
    return Some(renderer);
  }

  /** Every glyph of a font that loads is found under its own key. */
  lemma LoadedGlyphsFound(fontChars: seq<FontChar>, i: nat)
    requires DistinctCodes(fontChars) && i < |fontChars|
    ensures CodeOf(fontChars[i]) in CharTable(fontChars)
    ensures CharTable(fontChars)[CodeOf(fontChars[i])] == fontChars[i]
  {
    CharTableMeaning(fontChars);
  }

  /** Ids 65 and 65601 share the key 'A', so a font holding both does not load. */
  lemma WrappedIdsCollide(a: FontChar, b: FontChar)
    requires a.Id == 65 && b.Id == 65 + 0x1_0000
    ensures !DistinctCodes([a, b])
  {
    assert CodeOf([a, b][0]) == CodeOf([a, b][1]);
  }
}
