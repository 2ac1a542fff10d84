/**
 * A display theme: the stick images, the face-button images and the macro
 * templates that say which images stand for a logical button.
 */
module Themes {
  import opened Wrappers
  import Text
  import B = Buttons
  import ContentPath

  /** `InputMacro`: logical button to the buttons shown for it. */
  type Macros = map<B.ButtonName, seq<B.ButtonName>>

  /** `Theme.Direction`: the stick images of a theme, under `themes\dir/<name>`. */
  datatype DirectionTheme = DirectionTheme(name: string, Neutral: bool)
  {
    /** The folder of the nine stick images. */
    function Path(): string
    {
      BasePath + "/" + name
    }

    /** The image name of a stick direction: the numpad digit of the eight
        non-neutral directions; for neutral, for either opposing pair and for every
        other value, "5" when the theme has a neutral image and nothing otherwise. */
    function DirName(dir: B.Direction): Option<string>
    {
      if dir == B.Neutral || dir == B.Up | B.Down || dir == B.Forward | B.Backward then
        (if Neutral then Some(B.NumpadString(B.NumpadNeutral)) else None)
      else if dir == B.UpForward then Some(B.NumpadString(B.NumpadUpForward))
      else if dir == B.UpBackward then Some(B.NumpadString(B.NumpadUpBackward))
      else if dir == B.DownForward then Some(B.NumpadString(B.NumpadDownForward))
      else if dir == B.DownBackward then Some(B.NumpadString(B.NumpadDownBackward))
      else if dir == B.Down then Some(B.NumpadString(B.NumpadDown))
      else if dir == B.Up then Some(B.NumpadString(B.NumpadUp))
      else if dir == B.Forward then Some(B.NumpadString(B.NumpadForward))
      else if dir == B.Backward then Some(B.NumpadString(B.NumpadBackward))
      else if Neutral then Some(B.NumpadString(B.NumpadNeutral))
      else None
    }

    /** `GetTexturePath`: the image of a direction inside the theme's folder, or
        the shared neutral image when the theme has none for it. */
    function GetTexturePath(dir: B.Direction): string
    {
      match DirName(dir)
      case None => DefaultNeutral
      case Some(n) =>
        if Text.IsBlank(n) then DefaultNeutral
        else
          ContentPath.CombineOutcome([Path(), n]);
          assert [Path(), n][1] == n;
          ContentPath.Combine([Path(), n]).value
    }
  }

  const BasePath: string := "themes\\dir"
  const DefaultNeutral: string := "themes\\n"

  /** The image chosen for a direction: the eight named non-neutral directions get
      the numpad digit of `From`; neutral, the opposing pairs and every other value
      get "5" or, for a theme without a neutral image, nothing. */
  lemma DirNameMeaning(t: DirectionTheme, dir: B.Direction)
    ensures B.IsCanonical(dir) && dir != B.Neutral ==> t.DirName(dir) == Some(B.NumpadString(B.From(dir)))
    ensures !(B.IsCanonical(dir) && dir != B.Neutral) ==>
              t.DirName(dir) == (if t.Neutral then Some("5") else None)
  {
    B.NumpadStrings();
  }

  /** For a theme folder whose name does not end in a separator, a named non-neutral
      direction's image is `themes\dir\<name>\<digit>`; every other direction falls
      back to `themes\n` in a theme without a neutral image. */
  lemma DirectionTexturePath(t: DirectionTheme, dir: B.Direction)
    requires t.name != [] && !ContentPath.IsSeparator(t.name[|t.name| - 1])
    ensures B.IsCanonical(dir) && dir != B.Neutral ==>
              t.GetTexturePath(dir) ==
              Text.Replace(t.Path() + "\\" + B.NumpadString(B.From(dir)), '/', '\\')
    ensures !(B.IsCanonical(dir) && dir != B.Neutral) && !t.Neutral ==> t.GetTexturePath(dir) == DefaultNeutral
  {
    DirNameMeaning(t, dir);
    B.NumpadStrings();
    var p := t.Path();
    assert p[|p| - 1] == t.name[|t.name| - 1];
    assert p[0] == 't';
    if B.IsCanonical(dir) && dir != B.Neutral {
      var n := B.NumpadString(B.From(dir));
      assert |n| == 1 && '1' <= n[0] <= '9';
      assert !Text.IsBlank(n) && !Text.IsBlank(p);
      ContentPath.CombineTwo(p, n);
    }
  }

  const ButtonsBasePath: string := "themes\\btn"

  /** `Theme.FaceButtons`: the button images of a theme, its macro templates, and the
      image name of each button that has one. */
  datatype FaceButtons = FaceButtons(Name: string, MacrosTemplate: Macros, Textures: map<B.ButtonName, string>)
  {
    /** `Path`: `themes\btn` combined with the theme's folder name. */
    function Path(): (p: string)
      ensures !Text.IsBlank(p)
    {
      assert !Text.IsWhiteSpace(ButtonsBasePath[0]);
      ContentPath.CombineNotBlank([ButtonsBasePath, Name], 0);
      ContentPath.Combine([ButtonsBasePath, Name]).value
    }

    /** `GetTexturePath`: only buttons with an image (chords being keys of their own)
        have a path, inside the theme's folder. */
    function GetTexturePath(btn: B.ButtonName): (r: Option<string>)
      ensures r.Some? <==> btn in Textures
      ensures r.Some? ==> !Text.IsBlank(r.value)
    {
      if btn in Textures then
        ContentPath.CombineNotBlank([Path(), Textures[btn]], 0);
        Some(ContentPath.Combine([Path(), Textures[btn]]).value)
      else None
    }
  }

  /** A plain folder name ends up right under `themes\btn`. */
  lemma ButtonsPathShape(buttons: FaceButtons)
    requires !Text.IsBlank(buttons.Name) && !ContentPath.IsRooted(buttons.Name) && '/' !in buttons.Name
    ensures buttons.Path() == ButtonsBasePath + "\\" + buttons.Name
  {
    var name := buttons.Name;
    assert !Text.IsWhiteSpace(ButtonsBasePath[0]);
    assert ContentPath.NonBlank([ButtonsBasePath, name]) == [ButtonsBasePath, name] by {
      assert ContentPath.NonBlank([name]) == [name];
    }
    var joined := ContentPath.PathCombine(ButtonsBasePath, name);
    assert [ButtonsBasePath, name][..1] == [ButtonsBasePath];
    assert ContentPath.Aggregate([ButtonsBasePath, name]) == joined;
    assert joined == ButtonsBasePath + "\\" + name;
    Text.ReplaceAbsent(joined, '/', '\\');
  }

  /** `Theme`: a named pair of stick and button themes, possibly backed by another
      theme for the images it lacks. */
  datatype Theme = Theme(ButtonsName: string, StickName: string, Buttons: FaceButtons,
                         Stick: DirectionTheme, Fallback: Option<Theme>)
  {
    /** `GetMacro(name)`: the template's entry, even an empty one, else the button alone. */
    function GetMacro(name: B.ButtonName): (r: seq<B.ButtonName>)
      ensures name in Buttons.MacrosTemplate ==> r == Buttons.MacrosTemplate[name]
      ensures name !in Buttons.MacrosTemplate ==> r == [name]
      ensures r == [] ==> name in Buttons.MacrosTemplate
    {
      if name in Buttons.MacrosTemplate then Buttons.MacrosTemplate[name] else [name]
    }

    /** `GetMacro(name, macros)`: the user's own entry, even an empty one, then the
        template's, then the button alone. */
    function GetMacroWith(name: B.ButtonName, macros: Macros): (r: seq<B.ButtonName>)
      ensures name in macros ==> r == macros[name]
      ensures name !in macros && name in Buttons.MacrosTemplate ==> r == Buttons.MacrosTemplate[name]
      ensures name !in macros && name !in Buttons.MacrosTemplate ==> r == [name]
      ensures r == [] ==> name in macros || name in Buttons.MacrosTemplate
    {
      if name in macros then macros[name] else GetMacro(name)
    }
  }
}
