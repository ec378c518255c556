# Gamma Controller — profile registry and hot-key capture, modelled in Dafny

Gamma Controller is a small Windows Forms tool that sets a display's gamma,
brightness and contrast and recalls named *profiles* of those three values
through global hot keys. This project models the logic of its main form
(`MainForm.cs`):

* the **profile registry**: the list of saved profiles and the hot-key id
  counter (starting at 100), with *Save Profile* (checks in a fixed order:
  blank name, no captured key, key pair already used; then the next id is
  taken and the hot key requested, and the profile is kept only if the
  request is granted), loading the saved list (each profile re-registered, a
  refusal turning its id into -1, the counter set one past the largest id),
  *Delete Selected* (of the list box's selected entry), the lookup of a pressed hot key's id, and the release of
  every hot key when the form closes;
* the **hot-key capture box**: key-downs that are a modifier on its own are
  ignored, any other key replaces the pending (main key, modifiers) pair, and
  `Keys.None` means nothing has been captured;
* the small helpers: the translation of WinForms modifier flags to the Win32
  `MOD_*` mask, the two captions (`FormatHotkeyString` and
  `GammaProfile.ToString`), and the clamping conversions between a slider and
  its numeric field.

Layout, one module per concern:

| file | module | contents |
|---|---|---|
| numerics.dfy | `Numerics` | C# `int` (`Int32`), its wrap-around increment, `(int)` of a decimal |
| keys.dfy | `Keys` | `Keys` values as `bv32`, modifier flags, Win32 modifier mask |
| text.dfy | `Text` | `char.IsWhiteSpace`, `string.IsNullOrWhiteSpace` |
| hotkey_text.dfy | `HotkeyText` | the capture-box caption |
| gamma_profile.dfy | `GammaProfiles` | the profile record and its list caption |
| wrappers.dfy | `Wrappers` | `Option` |
| registry.dfy | `ProfileRegistry` | save, load, delete, resolve, shutdown as functions of the registry, and their properties |
| capture.dfy | `HotkeyCapture` | the capture state machine |
| param_sync.dfy | `ParameterSync` | slider and numeric-field controls and the clamps |
| main_form.dfy | `GammaController` | class `MainForm`: the form's fields and event handlers, each specified by the functions above or by the fields it sets |

The Win32 hot-key service is an oracle: each registration is answered by a
`bool` the caller passes in, and every request the form makes
(`Register(id, fsModifiers, vk)` or `Unregister(id)`) is appended to the
field `hotkeyCalls`, so the contracts say exactly which requests are made and
when none is. File reading is replaced by the list that was read
(`Option<seq<Profile>>`, `None` for a missing or unreadable file), and
`Keys.ToString()` by a function `keyName` the form is given.

The model follows the code, including where one might expect otherwise:

* there is no `registered` flag: a profile whose hot key is refused at load
  keeps its place with id -1, and several profiles can share -1;
* ids are not always positive or unique: if every registration at load fails
  the counter becomes 0, and the counter is a C# `int`, so `++` and
  `Max(...) + 1` wrap at 2147483647;
* a failed save still consumes its id;
* the name check is `string.IsNullOrWhiteSpace` and the name is stored as
  typed, not trimmed;
* a load of an empty list leaves the counter as it was (100 at start-up)
  rather than resetting it, and a load does not check for duplicate key pairs.

## Model

| member | source | states |
|---|---|---|
| Numerics.Inc32 | MainForm.cs:244 | `x++` on a C# `int`: one more below 2147483647, wrapping to -2147483648 at it |
| Numerics.TruncateToInt | MainForm.cs:166 | `(int)` of a decimal truncates toward zero: the result is within one unit of the value, on the zero side |
| Keys.VirtualKeyCode | MainForm.cs:248 | `(int)key` reads the 32 bits of a `Keys` value as a signed `int` |
| Keys.IsModifierKey | MainForm.cs:127 | the Control, Shift and Menu (Alt) key codes count as a lone modifier and no value whose low 16 bits are another code does; a lone modifier is never "no key" and carries no bits above the key code |
| Keys.GetWin32Modifiers | MainForm.cs:219-226 | the mask is in 0..7, bit 1 set iff Alt, bit 2 iff Control, bit 4 iff Shift |
| Keys.Win32IgnoresOtherBits | MainForm.cs:219-226 | bits other than Alt, Control and Shift do not affect the Win32 mask |
| Keys.Win32RoundTrip | MainForm.cs:219-226 | translating to Win32 and back gives exactly the Alt/Control/Shift bits of the input |
| Keys.Win32RoundTripBack | MainForm.cs:40-42 | every Win32 mask 0..7 is the translation of the `Keys` mask built from it |
| Keys.Win32SameIffSameFlags | MainForm.cs:219-226 | two masks translate alike exactly when they carry the same modifiers |
| Text.IsNullOrWhiteSpace | MainForm.cs:230 | the empty name is blank, and a name that begins or ends with a character other than white space is not |
| Text.TrimStart | MainForm.cs:230 | trimming drops exactly the leading white space: what it drops is all white space, and what is left is empty or starts with a non-white-space character |
| Text.BlankIffTrimsToEmpty | MainForm.cs:230 | a name is rejected as blank exactly when trimming its white space leaves nothing |
| HotkeyText.ModifierPrefix | MainForm.cs:212-214 | "Ctrl" and the separator open the modifier text exactly when the Control flag is set, "Alt" follows exactly when Alt is, "Shift" closes it exactly when Shift is, and the text has no other characters |
| HotkeyText.PrefixLengthDeterminesFlags | MainForm.cs:212-214 | the modifier part of a caption depends only on the modifiers present, and its length tells which they are |
| HotkeyText.FormatHotkeyString | MainForm.cs:209-217 | the capture caption is the modifier text with " + " separators followed by the main key's name |
| HotkeyText.FormatDistinguishesModifiers | MainForm.cs:209-217 | for one main key, two captions are equal exactly when the modifier sets are |
| GammaProfiles.Profile.ToString | MainForm.cs:328-338 | the list caption is the name, " [", the modifier text with "+" separators, the key name and "]" |
| GammaProfiles.ToStringDistinguishesModifiers | MainForm.cs:328-338 | for one name and key, two list captions are equal exactly when the modifier sets are |
| ProfileRegistry.Rejection | MainForm.cs:230-234 | a save is refused exactly when the name is blank, no main key is captured or the key pair is in use, and a refusal is never reported as saved or as a failed registration |
| ProfileRegistry.Save | MainForm.cs:228-255 | the outcome is "saved" exactly when validation passes and the hot key is granted; any other outcome leaves the list as it was; one registration is requested exactly when validation passes |
| ProfileRegistry.CombinationInUse | MainForm.cs:233 | a key pair is in use exactly when some profile of the list has it |
| ProfileRegistry.RegisterCall | MainForm.cs:247-248 | a registration request carries the profile's id, a Win32 mask in 0..7 that gives back exactly its Alt/Control/Shift bits, and its main key read as a signed `int` |
| ProfileRegistry.SaveRejectsBlankName | MainForm.cs:230 | a blank name is reported first, changes nothing and asks the hot-key service nothing |
| ProfileRegistry.SaveRejectsUnsetKey | MainForm.cs:231 | with a name but no captured key: "no hot key", no change, no request |
| ProfileRegistry.SaveRejectsDuplicate | MainForm.cs:233-234 | a key pair an existing profile has is refused whatever the name and parameters, with no change and no request |
| ProfileRegistry.SaveConsumesId | MainForm.cs:236-254 | after validation the id is the old counter, the counter advances whether or not the hot key is granted, one registration is requested, and only a grant appends, at the end, the profile holding the typed name, the three parameters, the key pair and that id |
| ProfileRegistry.SavePreservesDistinctCombinations | MainForm.cs:233-250 | a save never creates a second profile with an existing key pair |
| ProfileRegistry.SavePreservesIds | MainForm.cs:244-250 | without wrap-around, a save keeps every id below the counter and the ids rising along the list |
| ProfileRegistry.SavesKeepRegistryInvariant | MainForm.cs:228-255 | a list built only by saves has distinct key pairs and distinct, rising ids below the counter |
| ProfileRegistry.SaveKeepsIdsBelow | MainForm.cs:244-250 | without wrap-around, a save keeps every id below the counter, in any order the list has |
| ProfileRegistry.SavesAppendFreshIds | MainForm.cs:228-255 | a run of saves keeps the list it starts from in place and only appends profiles with rising ids between the starting and final counter |
| ProfileRegistry.SavesFromStartKeepInvariant | MainForm.cs:30-31 | from the start-up state (no profiles, counter 100), any run of saves yields distinct key pairs and distinct rising ids below the counter |
| ProfileRegistry.Load | MainForm.cs:267-283 | a missing or unreadable file changes nothing; otherwise each record read becomes the profile at its position, with id -1 if its registration is refused; a non-empty file sets the counter to the largest resulting id plus one (wrapping), an empty one leaves it |
| ProfileRegistry.LoadCalls | MainForm.cs:274-277 | the load asks for one registration per record, in file order, with the id as read |
| ProfileRegistry.MarkFailed | MainForm.cs:274-278 | each loaded profile keeps its id if its registration is granted and gets -1 otherwise; order and all other fields kept |
| ProfileRegistry.MaxId | MainForm.cs:279 | no id of a non-empty list exceeds `Max(p => p.HotkeyId)` |
| ProfileRegistry.MaxIdAttained | MainForm.cs:279 | some profile of the list has the maximum id |
| ProfileRegistry.LoadSetsCounterAboveIds | MainForm.cs:279 | after a non-empty load the counter is the largest id plus one, above every id kept |
| ProfileRegistry.LoadAllRefusedCounterZero | MainForm.cs:277-279 | when every registration fails all ids are -1 and the counter is 0 |
| ProfileRegistry.LoadThenSaveTakesFreshId | MainForm.cs:267-283 | the first granted save after a load gets the largest loaded id plus one, above every loaded id |
| ProfileRegistry.LoadThenSavesTakeFreshIds | MainForm.cs:228-283 | after a load, any run of saves keeps the loaded list in place, gives every added profile an id above all loaded ones, hands out rising ids, and keeps every id below the counter (barring wrap-around) |
| ProfileRegistry.RemoveAt | MainForm.cs:290 | `List.Remove` of the selected object: the entries before the selection stay in place and those after it move up by one |
| ProfileRegistry.RemoveAtMultiset | MainForm.cs:290 | exactly the selected entry goes and every other entry stays (as multisets) |
| ProfileRegistry.Delete | MainForm.cs:285-294 | without a selection nothing changes; with one the list loses exactly the entry at the selected position, the others keeping their order; the counter never changes |
| ProfileRegistry.DeleteCalls | MainForm.cs:289 | no request without a selection, else one release request for the selected profile's id |
| ProfileRegistry.DeleteRemovesExactlyOne | MainForm.cs:285-294 | deleting any selected position releases that profile's hot key, removes only it, keeps the counter and the registry invariants (including every id below the counter), and frees its key pair for a later save |
| ProfileRegistry.FirstWithId | MainForm.cs:310 | the position found has the id and no earlier profile has it; nothing is found exactly when no profile has it |
| ProfileRegistry.Resolve | MainForm.cs:310 | the profile found for an id is the first in the list that carries it; nothing is found exactly when no profile carries it |
| ProfileRegistry.ResolveFindsTheOwner | MainForm.cs:305-314 | in a registry built by saves an id resolves to the profile that carries it |
| ProfileRegistry.UnregisterAll | MainForm.cs:300 | one release request per profile, in list order, each for that profile's id |
| HotkeyCapture.OnKeyDown | MainForm.cs:125-130 | a lone Control, Shift or Alt key-down leaves the pair; any other overwrites both parts |
| HotkeyCapture.LeaveCaption | MainForm.cs:137-141 | leaving the box shows the pending pair, or "(Click to Set)" when no main key is set |
| HotkeyCapture.Replay | MainForm.cs:125-130 | a run of lone modifiers leaves the pair, and a run ending in another key leaves that key's pair |
| HotkeyCapture.LastMainKeyIndex | MainForm.cs:127 | the position found holds a key-down other than a lone modifier and only lone modifiers follow it; nothing is found exactly when every key-down is a lone modifier |
| HotkeyCapture.LastKeyWins | MainForm.cs:125-130 | after any run of key-downs the pair is that of the last non-modifier key-down, or unchanged if there was none |
| ParameterSync.TrackToNumValue | MainForm.cs:151-160 | slider value over factor, clamped: in range when the range is sane, exact when it already fits |
| ParameterSync.NumToTrackValue | MainForm.cs:162-171 | field value times factor, truncated toward zero, then clamped: in range when the range is sane, exact when it already fits, the minimum (or the maximum of an inverted range) below it, the maximum above it |
| ParameterSync.TrackRoundTrip | MainForm.cs:151-171 | slider to field and back returns the slider position whenever the field's range covers it |
| ParameterSync.NumRoundTrip | MainForm.cs:151-171 | field to slider and back returns the largest slider step not above the field's value |
| ParameterSync.FormSlidersRoundTrip | MainForm.cs:66-75 | the form's three slider/field pairs round-trip every slider position |
| GammaController.MainForm.constructor | MainForm.cs:45-52 | start-up state: defaults, nothing captured, then a load onto the empty list with counter 100 |
| GammaController.MainForm.ResetToDefaultValues | MainForm.cs:199-207 | parameters 1.0, pending pair unset, caption "(Click to Set)", nothing else touched |
| GammaController.MainForm.ApplyProfileToUI | MainForm.cs:188-197 | the form shows the profile and its key pair becomes the pending pair |
| GammaController.MainForm.HotkeyKeyDown | MainForm.cs:125-134 | the pending pair follows `OnKeyDown` and the caption shows a newly captured pair |
| GammaController.MainForm.HotkeyEnter | MainForm.cs:136 | entering the box prompts for keys and leaves the pending pair |
| GammaController.MainForm.HotkeyLeave | MainForm.cs:137-141 | leaving the box shows `LeaveCaption` of the pending pair |
| GammaController.MainForm.SaveProfile | MainForm.cs:228-255 | the new list, counter, reported outcome and hot-key requests are those of `Save` on the old state |
| GammaController.MainForm.LoadProfilesFromFile | MainForm.cs:267-283 | the new list and counter are those of `Load`, and one registration is requested per loaded profile, in order, with its id as read |
| GammaController.MainForm.DeleteProfile | MainForm.cs:285-294 | the list is that of `Delete` at the selected position and that profile's hot key is released; nothing happens with no selection |
| GammaController.MainForm.OnFormClosing | MainForm.cs:298-303 | every profile's hot key is released, in list order, and nothing else changes |
| GammaController.MainForm.WndProc | MainForm.cs:305-314 | a hot-key message shows the first profile with its id; another message or an unknown id changes nothing |
| GammaController.MainForm.SyncTrackToNum | MainForm.cs:151-160 | unless already syncing, the field takes the clamped slider value and stays in its range; the flag ends as it began |
| GammaController.MainForm.SyncNumToTrack | MainForm.cs:162-171 | unless already syncing, the slider takes the clamped truncated field value and stays in its range |

## Left out

- The tone curve and its application to displays (GammaManager.cs): floating-point `Math.Pow`, a truncating float-to-`UInt16` cast and device-context calls; GammaManager.cs is not part of this model, nor is `ApplyCurrentSettings`, which calls it, nor the gamma reset in `OnFormClosing`.
- XML persistence: `SaveProfilesToFile` after a save or delete is not modelled, and loading receives the list that was read; the swallowing `catch` is the `None` case.
- `RegisterHotKey` / `UnregisterHotKey` are system calls: registration answers are oracle inputs, unregistration answers are ignored as in the source, and both are only logged.
- `Keys.ToString()` is the uninterpreted function `keyName`.
- UI: message boxes (the save returns which message it would show), focus moves, colours, `RefreshProfileList`, control construction and screen enumeration.
- The selection events of the profile list: `RefreshProfileList` resets the list box's data source after a granted save, a load and a delete, which can change the selected entry and so run the selection handler (MainForm.cs:113-114), putting that profile on the form through `ApplyProfileToUI`. This effect is not modelled: the contracts of `SaveProfile`, `LoadProfilesFromFile`, `DeleteProfile` and the constructor leave the name, parameters, pending pair and caption as they were.
- The events raised by setting a numeric field (its `ValueChanged` runs `SyncNumToTrack` and `ApplyCurrentSettings`); the form's three parameter fields and the slider/field objects of `ParameterSync` are not linked.
- Profiles are values, and the list box's selection is its position in the list: `List.Remove` compares by reference, and the form never puts one object in the list twice (each save and each load creates new objects), so removing the selected object is removing that position. Object identity and aliasing of `GammaProfile` objects are not modelled otherwise.
- GammaController.MainForm.ApplyProfileToUI: does not model the `double`-to-`decimal` conversion or the exception a numeric field throws for a value outside its range.
- GammaProfiles.Profile.ToString: does not model a `null` name (possible after deserialisation), which the source renders as empty.
- GammaController.MainForm.SyncNumToTrack: does not model the overflow exception of `(int)` on a decimal outside the `int` range; the fields' ranges keep it far away.
- ParameterSync.TrackToNumValue: divides exactly; a `decimal` quotient is exact for the factors the form uses (10 and 50), and the rounding `decimal` division would do for other factors is not modelled.
- Profile parameters are `double` in the source and `decimal` in the fields; both are reals here.
