/**
 * Joining content-path segments into one Windows-style relative path.
 */
module ContentPath {
  import opened Wrappers
  import Text

  predicate IsSeparator(c: char)
  {
    c == '\\' || c == '/'
  }

  /** A path that `Path.Combine` takes as a new root: it starts with a separator
      or with a drive letter and a colon. */
  predicate IsRooted(p: string)
  {
    (|p| >= 1 && IsSeparator(p[0]))
    || (|p| >= 2 && p[1] == ':' && (('a' <= p[0] <= 'z') || ('A' <= p[0] <= 'Z')))
  }

  /** `Path.Combine(first, second)` with Windows separators: an empty side yields the
      other, a rooted second side replaces the first, and a backslash is put between
      them unless one of them already has a separator there. */
  function PathCombine(first: string, second: string): (r: string)
    ensures |r| >= |second|
    ensures second != [] && !IsRooted(second) && first != [] ==> first <= r
  {
    if second == [] then first
    else if first == [] || IsRooted(second) then second
    else if IsSeparator(first[|first| - 1]) || IsSeparator(second[0]) then first + second
    else first + "\\" + second
  }

  /** The second side always ends the combined path. */
  lemma PathCombineEndsWith(first: string, second: string)
    requires second != []
    ensures var r := PathCombine(first, second); |r| >= |second| && r[|r| - |second|..] == second
  {
  }

  /** A non-white character of a piece keeps a string from being blank. */
  lemma NotBlankKept(s: string, piece: string, offset: nat)
    requires offset + |piece| <= |s| && s[offset..offset + |piece|] == piece && !Text.IsBlank(piece)
    ensures !Text.IsBlank(s)
  {
    var i :| 0 <= i < |piece| && !Text.IsWhiteSpace(piece[i]);
    assert s[offset + i] == piece[i];
  }

  /** The segments that are not blank, in order. */
  function NonBlank(segments: seq<string>): (r: seq<string>)
    ensures |r| <= |segments|
    ensures forall i | 0 <= i < |r| :: !Text.IsBlank(r[i])
  {
    if segments == [] then []
    else if Text.IsBlank(segments[0]) then NonBlank(segments[1..])
    else [segments[0]] + NonBlank(segments[1..])
  }

  /** `Aggregate(Path.Combine)` over a non-empty list: a left fold. */
  function Aggregate(segments: seq<string>): string
    requires |segments| > 0
  {
    if |segments| == 1 then segments[0]
    else PathCombine(Aggregate(segments[..|segments| - 1]), segments[|segments| - 1])
  }

  /**
   * `ContentPath.Combine`: a single segment is returned verbatim; otherwise the
   * blank segments are dropped, the rest combined, and every '/' turned into
   * '\'. `None` is the InvalidOperationException `Aggregate` throws when no
   * segment is left.
   */
  function Combine(segments: seq<string>): Option<string>
  {
    if |segments| == 1 then Some(segments[0])
    else
      var kept := NonBlank(segments);
      if kept == [] then None
      else Some(Text.Replace(Aggregate(kept), '/', '\\'))
  }

  lemma {:induction false} NonBlankEmpty(segments: seq<string>)
    ensures NonBlank(segments) == [] <==> forall i | 0 <= i < |segments| :: Text.IsBlank(segments[i])
    decreases |segments|
  {
    if segments != [] {
      NonBlankEmpty(segments[1..]);
      assert forall i | 1 <= i < |segments| :: segments[i] == segments[1..][i - 1];
    }
  }

  /** A single segment comes back as it is, blank or holding '/'; zero segments, or
      two or more that are all blank, are an error; anything else gives a path
      without '/'. */
  lemma CombineOutcome(segments: seq<string>)
    ensures |segments| == 1 ==> Combine(segments) == Some(segments[0])
    ensures Combine(segments).None? <==>
              |segments| != 1 && forall i | 0 <= i < |segments| :: Text.IsBlank(segments[i])
    ensures |segments| != 1 && Combine(segments).Some? ==> '/' !in Combine(segments).value
  {
    NonBlankEmpty(segments);
    if |segments| != 1 && NonBlank(segments) != [] {
      Text.ReplaceRemoves(Aggregate(NonBlank(segments)), '/', '\\');
    }
  }

  /** With two or more segments, one of them not blank, the result exists and is not
      blank: it ends with the last non-blank segment. */
  lemma CombineNotBlank(segments: seq<string>, i: nat)
    requires |segments| >= 2 && i < |segments| && !Text.IsBlank(segments[i])
    ensures Combine(segments).Some? && !Text.IsBlank(Combine(segments).value)
  {
    NonBlankEmpty(segments);
    var kept := NonBlank(segments);
    var joined := Aggregate(kept);
    var last := kept[|kept| - 1];
    if |kept| == 1 {
      NotBlankKept(joined, last, 0);
    } else {
      PathCombineEndsWith(Aggregate(kept[..|kept| - 1]), last);
      NotBlankKept(joined, last, |joined| - |last|);
    }
    Text.ReplaceKeepsNotBlank(joined, '/', '\\');
  }

  lemma {:induction false} NonBlankAppend(a: seq<string>, b: seq<string>)
    ensures NonBlank(a + b) == NonBlank(a) + NonBlank(b)
    decreases |a|
  {
    if a == [] {
      assert a + b == b;
    } else {
      assert (a + b)[1..] == a[1..] + b;
      NonBlankAppend(a[1..], b);
    }
  }

  /** With two or more segments, inserting a blank segment anywhere changes nothing. */
  lemma BlankSegmentsIgnored(a: seq<string>, blank: string, b: seq<string>)
    requires Text.IsBlank(blank) && |a + b| >= 2
    ensures Combine(a + [blank] + b) == Combine(a + b)
  {
    NonBlankAppend(a, [blank] + b);
    NonBlankAppend([blank], b);
    NonBlankAppend(a, b);
    assert a + [blank] + b == a + ([blank] + b);
    assert NonBlank([blank]) == [];
  }

  /** Two plain segments, neither blank, the second not rooted and no separator where
      they meet, are joined by one backslash. */
  lemma CombineTwo(first: string, second: string)
    requires !Text.IsBlank(first) && !Text.IsBlank(second) && !IsRooted(second)
    requires !IsSeparator(first[|first| - 1])
    ensures Combine([first, second]) == Some(Text.Replace(first + "\\" + second, '/', '\\'))
  {
    assert NonBlank([second]) == [second];
    assert NonBlank([first, second]) == [first, second];
    assert Aggregate([first, second]) == PathCombine(first, second);
  }
}
