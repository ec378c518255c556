/** The hot-key captions the form shows in the capture box and the profile list. */
module HotkeyText {
  import opened Keys

  /** The modifier names in the fixed order Ctrl, Alt, Shift, each followed
      by `sep`: "Ctrl" (with `sep`) opens the text exactly when the Control
      flag is set, "Alt" comes next exactly when the Alt flag is, and "Shift"
      closes it exactly when the Shift flag is; nothing else is in it. */
  function ModifierPrefix(mods: KeyValue, sep: string): (r: string)
    ensures |r| == (if mods & Control != 0 then 4 + |sep| else 0)
                 + (if mods & Alt != 0 then 3 + |sep| else 0)
                 + (if mods & Shift != 0 then 5 + |sep| else 0)
    ensures mods & Control != 0 ==> r[..4 + |sep|] == "Ctrl" + sep
    ensures mods & Alt != 0 ==>
      var k := if mods & Control != 0 then 4 + |sep| else 0;
      r[k..k + 3 + |sep|] == "Alt" + sep
    ensures mods & Shift != 0 ==> r[|r| - 5 - |sep|..] == "Shift" + sep
  {
    (if mods & Control != 0 then "Ctrl" + sep else "") +
    (if mods & Alt != 0 then "Alt" + sep else "") +
    (if mods & Shift != 0 then "Shift" + sep else "")
  }

  /** The caption depends only on which of the three modifiers are present,
      and its length alone tells which they are. */
  lemma PrefixLengthDeterminesFlags(m1: KeyValue, m2: KeyValue, sep: string)
    ensures ModifierFlags(m1) == ModifierFlags(m2) ==> ModifierPrefix(m1, sep) == ModifierPrefix(m2, sep)
    ensures |ModifierPrefix(m1, sep)| == |ModifierPrefix(m2, sep)| ==> ModifierFlags(m1) == ModifierFlags(m2)
  {
    var f1, f2 := ModifierFlags(m1), ModifierFlags(m2);
    assert Ctrl in f1 <==> m1 & Control != 0;
    assert Ctrl in f2 <==> m2 & Control != 0;
    assert AltMod in f1 <==> m1 & Alt != 0;
    assert AltMod in f2 <==> m2 & Alt != 0;
    assert ShiftMod in f1 <==> m1 & Shift != 0;
    assert ShiftMod in f2 <==> m2 & Shift != 0;
  }

  /** `FormatHotkeyString`: the text of the capture box, e.g. "Ctrl + Alt + N";
      `keyName` is what `Keys.ToString()` gives for the main key. */
  function FormatHotkeyString(mods: KeyValue, keyName: string): (r: string)
    ensures |r| >= |keyName| && r[|r| - |keyName|..] == keyName
    ensures r[..|r| - |keyName|] == ModifierPrefix(mods, " + ")
  {
    ModifierPrefix(mods, " + ") + keyName
  }

  /** Two captions for one main key are equal exactly when the modifiers are. */
  lemma FormatDistinguishesModifiers(m1: KeyValue, m2: KeyValue, keyName: string)
    ensures FormatHotkeyString(m1, keyName) == FormatHotkeyString(m2, keyName)
        <==> ModifierFlags(m1) == ModifierFlags(m2)
  {
    PrefixLengthDeterminesFlags(m1, m2, " + ");
  }
}
