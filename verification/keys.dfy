/** The WinForms `Keys` values the form handles, and their translation to the
    modifier mask of the Win32 hot-key service. */
module Keys {

  /** A `Keys` value: a key code in the low 16 bits, modifier flags above. */
  type KeyValue = bv32

  const None: KeyValue := 0
  const ShiftKey: KeyValue := 0x10
  const ControlKey: KeyValue := 0x11
  /** The Alt key as a key code. */
  const Menu: KeyValue := 0x12

  const Shift: KeyValue := 0x1_0000
  const Control: KeyValue := 0x2_0000
  const Alt: KeyValue := 0x4_0000
  const ModifierBits: KeyValue := 0x7_0000

  /** Win32 `MOD_*` flags. */
  const ModAlt: int := 0x1
  const ModControl: int := 0x2
  const ModShift: int := 0x4

  datatype Modifier = Ctrl | AltMod | ShiftMod

  /** The modifiers a `Keys` mask carries, as a set. */
  function ModifierFlags(mods: KeyValue): (s: set<Modifier>)
    ensures Ctrl in s <==> mods & Control != 0
    ensures AltMod in s <==> mods & Alt != 0
    ensures ShiftMod in s <==> mods & Shift != 0
  {
    (if mods & Control != 0 then {Ctrl} else {}) +
    (if mods & Alt != 0 then {AltMod} else {}) +
    (if mods & Shift != 0 then {ShiftMod} else {})
  }

  /** A key-down of one of these is a modifier pressed on its own: a key
      code in the low bits, so it never reads as "no key" and carries no
      modifier flag itself. */
  predicate IsModifierKey(code: KeyValue): (b: bool)
    ensures code == ControlKey || code == ShiftKey || code == Menu ==> b
    ensures b ==> code != None && ModifierFlags(code) == {} && code & 0xFFFF_0000 == 0
    ensures code & 0xFFFF != 0x10 && code & 0xFFFF != 0x11 && code & 0xFFFF != 0x12 ==> !b
  {
    code == ControlKey || code == ShiftKey || code == Menu
  }

  /** `(int)key`: the 32 bits read as a signed C# `int`. */
  function VirtualKeyCode(key: KeyValue): (vk: int)
    ensures -0x8000_0000 <= vk <= 0x7fff_ffff
    ensures vk == key as int || vk == key as int - 0x1_0000_0000
  {
    var n := key as int;
    if n < 0x8000_0000 then n else n - 0x1_0000_0000
  }

  /** The Win32 `fsModifiers` argument for a `Keys` modifier mask: Alt, Control
      and Shift become MOD_ALT, MOD_CONTROL and MOD_SHIFT; every other bit is ignored. */
  function GetWin32Modifiers(modifiers: KeyValue): (fs: int)
    ensures 0 <= fs <= 7
    ensures (fs % 2 == 1) <==> modifiers & Alt != 0
    ensures (fs / 2 % 2 == 1) <==> modifiers & Control != 0
    ensures (fs / 4 == 1) <==> modifiers & Shift != 0
  {
    var a := if modifiers & Alt != 0 then ModAlt else 0;
    var c := if modifiers & Control != 0 then ModControl else 0;
    var s := if modifiers & Shift != 0 then ModShift else 0;
    a + c + s
  }

  /** The inverse direction: the `Keys` mask holding exactly the modifiers a
      Win32 `fsModifiers` value names. */
  function KeysFromWin32(fs: int): (mods: KeyValue)
    requires 0 <= fs <= 7
    ensures mods & ModifierBits == mods
  {
    (if fs % 2 == 1 then Alt else 0) |
    (if fs / 2 % 2 == 1 then Control else 0) |
    (if fs / 4 == 1 then Shift else 0)
  }

  /** Bits outside Alt, Control and Shift never reach the Win32 mask. */
  lemma Win32IgnoresOtherBits(modifiers: KeyValue)
    ensures GetWin32Modifiers(modifiers) == GetWin32Modifiers(modifiers & ModifierBits)
  {
    assert (modifiers & ModifierBits) & Alt == modifiers & Alt;
    assert (modifiers & ModifierBits) & Control == modifiers & Control;
    assert (modifiers & ModifierBits) & Shift == modifiers & Shift;
  }

  /** Translating to Win32 and back keeps exactly the three modifier bits. */
  lemma Win32RoundTrip(modifiers: KeyValue)
    ensures KeysFromWin32(GetWin32Modifiers(modifiers)) == modifiers & ModifierBits
  {
  }

  /** Every Win32 modifier mask is reached from exactly one set of modifier bits. */
  lemma Win32RoundTripBack(fs: int)
    requires 0 <= fs <= 7
    ensures GetWin32Modifiers(KeysFromWin32(fs)) == fs
  {
  }

  /** Two masks give the same Win32 flags exactly when they name the same modifiers. */
  lemma Win32SameIffSameFlags(m1: KeyValue, m2: KeyValue)
    ensures GetWin32Modifiers(m1) == GetWin32Modifiers(m2) <==> ModifierFlags(m1) == ModifierFlags(m2)
  {
    var f1, f2 := ModifierFlags(m1), ModifierFlags(m2);
    if f1 == f2 {
      assert (m1 & Alt != 0) == (m2 & Alt != 0) by { assert AltMod in f1 <==> AltMod in f2; }
      assert (m1 & Control != 0) == (m2 & Control != 0) by { assert Ctrl in f1 <==> Ctrl in f2; }
      assert (m1 & Shift != 0) == (m2 & Shift != 0) by { assert ShiftMod in f1 <==> ShiftMod in f2; }
    }
  }
}
