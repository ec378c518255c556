/** The form's state and its event handlers: the profile list, the id
    counter, the pending key pair and the boxes and fields that feed a save. */
module GammaController {
  import opened Numerics
  import Keys
  import opened Wrappers
  import opened HotkeyText
  import opened GammaProfiles
  import opened ProfileRegistry
  import opened HotkeyCapture
  import opened ParameterSync

  /** The window message of a pressed global hot key. */
  const WmHotkey: int := 0x0312
  const DefaultProfileName: string := "Game Mode"

  class MainForm {
    /** `Keys.ToString()`: the name shown for a main key. */
    const keyName: Keys.KeyValue -> string

    var profiles: seq<Profile>
    var currentHotkeyIdCounter: Int32
    var tempMainKey: Keys.KeyValue
    var tempModifiers: Keys.KeyValue
    /** The text of the name box. */
    var profileName: string
    /** The text of the capture box. */
    var hotkeyText: string
    /** The values of the gamma, brightness and contrast fields. */
    var gamma: real
    var brightness: real
    var contrast: real
    var isSyncing: bool
    /** The requests made to the Win32 hot-key service, oldest first. */
    var hotkeyCalls: seq<HotkeyCall>

    function Current(): Registry
      reads this
    {
      Registry(profiles, currentHotkeyIdCounter)
    }

    function PendingPair(): Pending
      reads this
    {
      Pending(tempMainKey, tempModifiers)
    }

    /** What a click on "Save Profile" would save. */
    function Form(): SaveForm
      reads this
    {
      SaveForm(profileName, gamma, brightness, contrast, tempMainKey, tempModifiers)
    }

    /** The form shows profile `p`: its parameters, its name and its hot key. */
    ghost predicate Shows(p: Profile)
      reads this
    {
      && gamma == p.gamma && brightness == p.brightness && contrast == p.contrast
      && profileName == p.name
      && PendingPair() == Pending(p.mainKey, p.modifiers)
      && hotkeyText == FormatHotkeyString(p.modifiers, keyName(p.mainKey))
    }

    /** Start-up: the controls' initial values (which are also what
        `ResetToDefaultValues` sets), then the saved profiles are loaded
        (`file` and `granted` as for `LoadProfilesFromFile`). */
    constructor (keyName: Keys.KeyValue -> string, file: Option<seq<Profile>>, granted: seq<bool>)
      requires file.Some? ==> |granted| == |file.value|
      ensures this.keyName == keyName
      ensures Current() == Load(Initial(), file, granted)
      ensures hotkeyCalls == if file.Some? then LoadCalls(file.value) else []
      ensures tempMainKey == Keys.None && tempModifiers == Keys.None
      ensures hotkeyText == ClickToSet && profileName == DefaultProfileName
      ensures gamma == 1.0 && brightness == 1.0 && contrast == 1.0 && !isSyncing
    {
      this.keyName := keyName;
      profiles := [];
      currentHotkeyIdCounter := FirstHotkeyId;
      tempMainKey, tempModifiers := Keys.None, Keys.None;
      profileName := DefaultProfileName;
      hotkeyText := ClickToSet;
      gamma, brightness, contrast := 1.0, 1.0, 1.0;
      isSyncing := false;
      hotkeyCalls := [];
      new;
      assert Current() == Initial();
      LoadProfilesFromFile(file, granted);
      assert hotkeyCalls == [] + if file.Some? then LoadCalls(file.value) else [];
    }

    /** "Reset Default": parameters back to 1.0 and nothing captured. */
    method ResetToDefaultValues()
      modifies this`gamma, this`brightness, this`contrast, this`tempMainKey, this`tempModifiers, this`hotkeyText
      ensures gamma == 1.0 && brightness == 1.0 && contrast == 1.0
      ensures tempMainKey == Keys.None && tempModifiers == Keys.None && hotkeyText == ClickToSet
    {
      gamma, brightness, contrast := 1.0, 1.0, 1.0;
      tempMainKey := Keys.None;
      tempModifiers := Keys.None;
      hotkeyText := ClickToSet;
    }

    /** Selecting a profile, or pressing its hot key, puts it on the form;
        its key pair becomes the pending pair. */
    method ApplyProfileToUI(p: Profile)
      modifies this`gamma, this`brightness, this`contrast, this`profileName,
               this`tempMainKey, this`tempModifiers, this`hotkeyText
      ensures Shows(p)
    {
      gamma, brightness, contrast := p.gamma, p.brightness, p.contrast;
      profileName := p.name;
      tempMainKey := p.mainKey;
      tempModifiers := p.modifiers;
      hotkeyText := FormatHotkeyString(p.modifiers, keyName(p.mainKey));
    }

    /** A key-down in the capture box. */
    method HotkeyKeyDown(e: KeyEvent)
      modifies this`tempMainKey, this`tempModifiers, this`hotkeyText
      ensures PendingPair() == OnKeyDown(old(PendingPair()), e)
      ensures Keys.IsModifierKey(e.keyCode) ==> hotkeyText == old(hotkeyText)
      ensures !Keys.IsModifierKey(e.keyCode) ==> hotkeyText == FormatHotkeyString(e.modifiers, keyName(e.keyCode))
    {
      if e.keyCode == Keys.ControlKey || e.keyCode == Keys.ShiftKey || e.keyCode == Keys.Menu {
        return;
      }
      tempMainKey := e.keyCode;
      tempModifiers := e.modifiers;
      hotkeyText := FormatHotkeyString(tempModifiers, keyName(tempMainKey));
    }

    /** The capture box gains focus: it prompts for keys; the pending pair stays. */
    method HotkeyEnter()
      modifies this`hotkeyText
      ensures hotkeyText == PressKeys
    {
      hotkeyText := PressKeys;
    }

    /** The capture box loses focus: it shows the pending pair, or the
        "unset" prompt if no main key was captured. */
    method HotkeyLeave()
      modifies this`hotkeyText
      ensures hotkeyText == LeaveCaption(PendingPair(), keyName(tempMainKey))
    {
      if tempMainKey != Keys.None {
        hotkeyText := FormatHotkeyString(tempModifiers, keyName(tempMainKey));
      } else {
        hotkeyText := ClickToSet;
      }
    }

    /** "Save Profile"; `granted` is the hot-key service's answer. */
    method SaveProfile(granted: bool) returns (outcome: SaveOutcome)
      modifies this`profiles, this`currentHotkeyIdCounter, this`hotkeyCalls
      ensures var s := Save(old(Current()), Form(), granted);
        && Current() == s.after && outcome == s.outcome
        && hotkeyCalls == old(hotkeyCalls) + s.calls
    {
      if Text.IsNullOrWhiteSpace(profileName) {
        return EmptyName;
      }
      if tempMainKey == Keys.None {
        return NoHotkeySet;
      }
      if CombinationInUse(profiles, tempMainKey, tempModifiers) {
        return HotkeyInUse;
      }
      var profile := Profile(profileName, gamma, brightness, contrast, tempMainKey, tempModifiers,
                             currentHotkeyIdCounter);
      currentHotkeyIdCounter := Inc32(currentHotkeyIdCounter);
      var fsModifiers := Keys.GetWin32Modifiers(profile.modifiers);
      hotkeyCalls := hotkeyCalls + [Register(profile.hotkeyId, fsModifiers, Keys.VirtualKeyCode(profile.mainKey))];
      if granted {
        profiles := profiles + [profile];
        outcome := Saved;
      } else {
        outcome := RegistrationFailed;
      }
    }

    /** Loading the saved profiles: `file` is what was read (`None` if the
        file is missing or unreadable) and `granted[i]` the hot-key service's
        answer for the i-th profile read. */
    method LoadProfilesFromFile(file: Option<seq<Profile>>, granted: seq<bool>)
      requires file.Some? ==> |granted| == |file.value|
      modifies this`profiles, this`currentHotkeyIdCounter, this`hotkeyCalls
      ensures Current() == Load(old(Current()), file, granted)
      ensures hotkeyCalls == old(hotkeyCalls) + if file.Some? then LoadCalls(file.value) else []
    {
      if file.None? {
        return;
      }
      var loaded := file.value;
      var ps := loaded;
      var calls := [];
      var i := 0;
      while i < |ps|
        invariant 0 <= i <= |ps| == |loaded|
        invariant forall k :: 0 <= k < i ==>
          ps[k] == if granted[k] then loaded[k] else loaded[k].(hotkeyId := -1)
        invariant forall k :: i <= k < |ps| ==> ps[k] == loaded[k]
        invariant |calls| == i
        invariant forall k :: 0 <= k < i ==> calls[k] == RegisterCall(loaded[k])
      {
        var p := ps[i];
        var fsModifiers := Keys.GetWin32Modifiers(p.modifiers);
        calls := calls + [Register(p.hotkeyId, fsModifiers, Keys.VirtualKeyCode(p.mainKey))];
        if !granted[i] {
          ps := ps[i := p.(hotkeyId := -1)];
        }
        i := i + 1;
      }
      assert ps == MarkFailed(loaded, granted);
      assert calls == LoadCalls(loaded);
      profiles := ps;
      hotkeyCalls := hotkeyCalls + calls;
      if |ps| > 0 {
        currentHotkeyIdCounter := Inc32(MaxId(ps));
      }
    }

    /** "Delete Selected"; `selected` is the position of the list's selection. */
    method DeleteProfile(selected: Option<nat>)
      requires selected.Some? ==> selected.value < |profiles|
      modifies this`profiles, this`hotkeyCalls
      ensures Current() == Delete(old(Current()), selected)
      ensures hotkeyCalls == old(hotkeyCalls) + DeleteCalls(old(profiles), selected)
    {
      if selected.Some? {
        var profile := profiles[selected.value];
        hotkeyCalls := hotkeyCalls + [Unregister(profile.hotkeyId)];
        profiles := RemoveAt(profiles, selected.value);
      }
    }

    /** Closing the form releases every profile's hot key, in list order. */
    method OnFormClosing()
      modifies this`hotkeyCalls
      ensures hotkeyCalls == old(hotkeyCalls) + UnregisterAll(profiles)
    {
      var i := 0;
      while i < |profiles|
        invariant 0 <= i <= |profiles|
        invariant hotkeyCalls == old(hotkeyCalls) + UnregisterAll(profiles[..i])
      {
        assert UnregisterAll(profiles[..i + 1]) == UnregisterAll(profiles[..i]) + [Unregister(profiles[i].hotkeyId)];
        hotkeyCalls := hotkeyCalls + [Unregister(profiles[i].hotkeyId)];
        i := i + 1;
      }
      assert profiles[..i] == profiles;
    }

    /** A window message: a hot-key message puts the first profile with the
        message's id on the form; any other message, or an id no profile
        has, changes nothing. */
    method WndProc(msg: int, wParam: Int32)
      modifies this`gamma, this`brightness, this`contrast, this`profileName,
               this`tempMainKey, this`tempModifiers, this`hotkeyText
      ensures var found := if msg == WmHotkey then Resolve(old(profiles), wParam) else None;
        match found
        case None => unchanged(this)
        case Some(p) => Shows(p)
    {
      if msg == WmHotkey {
        var profile := Resolve(profiles, wParam);
        if profile.Some? {
          ApplyProfileToUI(profile.value);
        }
      }
    }

    /** Slider moved: the field follows, unless an update is already under way. */
    method SyncTrackToNum(track: TrackBar, num: NumericUpDown, factor: int)
      requires factor > 0 && num.Valid()
      modifies this`isSyncing, num`value
      ensures isSyncing == old(isSyncing) && num.Valid()
      ensures old(isSyncing) ==> num.value == old(num.value)
      ensures !old(isSyncing) ==> num.value == TrackToNumValue(track.value, factor, num.minimum, num.maximum)
    {
      if isSyncing {
        return;
      }
      isSyncing := true;
      var val := track.value as real / factor as real;
      if val < num.minimum {
        val := num.minimum;
      }
      if val > num.maximum {
        val := num.maximum;
      }
      assert val == TrackToNumValue(track.value, factor, num.minimum, num.maximum);
      num.value := val;
      isSyncing := false;
    }

    /** Field changed: the slider follows, unless an update is already under way. */
    method SyncNumToTrack(num: NumericUpDown, track: TrackBar, factor: int)
      requires track.Valid()
      modifies this`isSyncing, track`value
      ensures isSyncing == old(isSyncing) && track.Valid()
      ensures old(isSyncing) ==> track.value == old(track.value)
      ensures !old(isSyncing) ==> track.value == NumToTrackValue(num.value, factor, track.minimum, track.maximum)
    {
      if isSyncing {
        return;
      }
      isSyncing := true;
      var val := TruncateToInt(num.value * factor as real);
      if val < track.minimum {
        val := track.minimum;
      }
      if val > track.maximum {
        val := track.maximum;
      }
      assert val == NumToTrackValue(num.value, factor, track.minimum, track.maximum);
      track.value := val;
      isSyncing := false;
    }
  }
}
