/** The .NET string tests the form applies to the profile name. */
module Text {

  /** The characters `char.IsWhiteSpace` accepts: the Unicode space, line and
      paragraph separators together with U+0009..U+000D and U+0085. */
  const WhiteSpaceChars: set<char> := {
    '\U{0009}', '\U{000A}', '\U{000B}', '\U{000C}', '\U{000D}', '\U{0020}', '\U{0085}', '\U{00A0}',
    '\U{1680}', '\U{2000}', '\U{2001}', '\U{2002}', '\U{2003}', '\U{2004}', '\U{2005}', '\U{2006}',
    '\U{2007}', '\U{2008}', '\U{2009}', '\U{200A}', '\U{2028}', '\U{2029}', '\U{202F}', '\U{205F}',
    '\U{3000}'
  }

  predicate IsWhiteSpace(c: char)
  {
    c in WhiteSpaceChars
  }

  /** `string.IsNullOrWhiteSpace` on a non-null string: no character of it is
      anything but white space (so the empty string qualifies). */
  predicate IsNullOrWhiteSpace(s: string): (b: bool)
    ensures s == [] ==> b
    ensures |s| > 0 && !IsWhiteSpace(s[0]) ==> !b
    ensures |s| > 0 && !IsWhiteSpace(s[|s| - 1]) ==> !b
  {
    forall i :: 0 <= i < |s| ==> IsWhiteSpace(s[i])
  }

  /** `string.TrimStart()`: drops the leading white space. */
  function TrimStart(s: string): (r: string)
    ensures |r| <= |s| && r == s[|s| - |r|..]
    ensures r != [] ==> !IsWhiteSpace(r[0])
    ensures forall i :: 0 <= i < |s| - |r| ==> IsWhiteSpace(s[i])
  {
    if s == [] || !IsWhiteSpace(s[0]) then s
    else
      var r := TrimStart(s[1..]);
      assert forall k :: 0 <= k < |s| - 1 - |r| ==> s[1..][k] == s[k + 1];
      r
  }

  /** A name counts as blank exactly when trimming it leaves nothing. */
  lemma {:induction false} BlankIffTrimsToEmpty(s: string)
    ensures IsNullOrWhiteSpace(s) <==> TrimStart(s) == []
  {
    if s != [] && IsWhiteSpace(s[0]) {
      BlankIffTrimsToEmpty(s[1..]);
      BlankCons(s);
    }
  }

  lemma BlankCons(s: string)
    requires s != []
    ensures IsNullOrWhiteSpace(s) <==> IsWhiteSpace(s[0]) && IsNullOrWhiteSpace(s[1..])
  {
    if IsWhiteSpace(s[0]) && IsNullOrWhiteSpace(s[1..]) {
      forall i | 0 <= i < |s| ensures IsWhiteSpace(s[i]) {
        if i > 0 { assert s[i] == s[1..][i - 1]; }
      }
    }
  }
}
