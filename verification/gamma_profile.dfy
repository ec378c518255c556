/** A saved profile: a name, the three curve parameters and a hot key. */
module GammaProfiles {
  import opened Numerics
  import opened Keys
  import opened HotkeyText

  datatype Profile = Profile(
    name: string,
    gamma: real,
    brightness: real,
    contrast: real,
    mainKey: KeyValue,
    modifiers: KeyValue,
    hotkeyId: Int32)
  {
    /** The (main key, modifiers) pair that must be unique among saved profiles. */
    function Combination(): (KeyValue, KeyValue)
    {
      (mainKey, modifiers)
    }

    /** `GammaProfile.ToString`: the list entry, e.g. "Night [Ctrl+Alt+N]". */
    function ToString(keyName: string): (s: string)
      ensures |s| >= |name| + |keyName| + 3 && s[..|name|] == name && s[|name|..|name| + 2] == " [" && s[|s| - 1] == ']'
      ensures s[|s| - 1 - |keyName|..|s| - 1] == keyName
      ensures s[|name| + 2..|s| - 1 - |keyName|] == ModifierPrefix(modifiers, "+")
    {
      var head, pre := name + " [", ModifierPrefix(modifiers, "+");
      ConcatParts(head, pre, keyName, "]");
      assert head[..|name|] == name && head[|name|..] == " [";
      head + pre + keyName + "]"
    }
  }

  /** Each part of a four-part concatenation can be read back by position. */
  lemma ConcatParts(a: string, b: string, c: string, d: string)
    ensures var s := a + b + c + d;
      && s[..|a|] == a && s[|a|..|a| + |b|] == b
      && s[|a| + |b|..|a| + |b| + |c|] == c && s[|a| + |b| + |c|..] == d
  {
  }

  /** Two entries for the same name and main key differ exactly when the modifiers do. */
  lemma ToStringDistinguishesModifiers(p: Profile, q: Profile, keyName: string)
    requires p.name == q.name
    ensures p.ToString(keyName) == q.ToString(keyName) <==> ModifierFlags(p.modifiers) == ModifierFlags(q.modifiers)
  {
    PrefixLengthDeterminesFlags(p.modifiers, q.modifiers, "+");
    var s, t := p.ToString(keyName), q.ToString(keyName);
    var pp, qp := ModifierPrefix(p.modifiers, "+"), ModifierPrefix(q.modifiers, "+");
    var k := |p.name| + 2;
    if s == t {
      assert |pp| == |qp|;
    } else {
      assert pp != qp;
    }
  }
}
