/** The profile registry: the saved profiles and the hot-key id counter, and
    what saving, loading, deleting, resolving and shutting down do to them.
    The Win32 hot-key service is an oracle: each registration request is
    answered by a `bool` the caller supplies, and every request made is
    reported as a `HotkeyCall`. */
module ProfileRegistry {
  import opened Numerics
  import Keys
  import opened Text
  import opened Wrappers
  import opened GammaProfiles

  /** The counter's value when the form starts. */
  const FirstHotkeyId: Int32 := 100

  datatype Registry = Registry(profiles: seq<Profile>, counter: Int32)

  /** What the form holds when "Save Profile" is clicked: the name box, the
      three parameter fields and the captured key pair. */
  datatype SaveForm = SaveForm(
    name: string,
    gamma: real,
    brightness: real,
    contrast: real,
    mainKey: Keys.KeyValue,
    modifiers: Keys.KeyValue)

  /** Which message, if any, the save reports. */
  datatype SaveOutcome = EmptyName | NoHotkeySet | HotkeyInUse | RegistrationFailed | Saved

  /** A request made to the Win32 hot-key service. */
  datatype HotkeyCall = Register(id: Int32, fsModifiers: int, vk: int) | Unregister(id: Int32)

  datatype SaveStep = SaveStep(after: Registry, outcome: SaveOutcome, calls: seq<HotkeyCall>)

  /** The registration request for a profile: its id, the Win32 form of its
      modifiers (which gives back exactly its Alt/Control/Shift bits) and the
      main key read as a signed `int`. */
  function RegisterCall(p: Profile): (c: HotkeyCall)
    ensures c.Register? && c.id == p.hotkeyId
    ensures 0 <= c.fsModifiers <= 7 && Keys.KeysFromWin32(c.fsModifiers) == p.modifiers & Keys.ModifierBits
    ensures -0x8000_0000 <= c.vk <= 0x7fff_ffff
    ensures c.vk == p.mainKey as int || c.vk == p.mainKey as int - 0x1_0000_0000
  {
    Keys.Win32RoundTrip(p.modifiers);
    Register(p.hotkeyId, Keys.GetWin32Modifiers(p.modifiers), Keys.VirtualKeyCode(p.mainKey))
  }

  /** `profiles.Any(p => p.MainKey == mainKey && p.Modifiers == modifiers)`. */
  predicate CombinationInUse(profiles: seq<Profile>, mainKey: Keys.KeyValue, modifiers: Keys.KeyValue): (b: bool)
    ensures b <==> exists p :: p in profiles && p.Combination() == (mainKey, modifiers)
  {
    var used := exists i :: 0 <= i < |profiles| && profiles[i].mainKey == mainKey && profiles[i].modifiers == modifiers;
    assert used ==> exists p :: p in profiles && p.Combination() == (mainKey, modifiers) by {
      if used {
        var i :| 0 <= i < |profiles| && profiles[i].mainKey == mainKey && profiles[i].modifiers == modifiers;
        assert profiles[i] in profiles && profiles[i].Combination() == (mainKey, modifiers);
      }
    }
    used
  }

  /** The first check the save fails, in the order the form makes them. */
  function Rejection(profiles: seq<Profile>, f: SaveForm): (e: Option<SaveOutcome>)
    ensures e.None? <==> !IsNullOrWhiteSpace(f.name) && f.mainKey != Keys.None
                         && !CombinationInUse(profiles, f.mainKey, f.modifiers)
    ensures e != Some(Saved) && e != Some(RegistrationFailed)
  {
    if IsNullOrWhiteSpace(f.name) then Some(EmptyName)
    else if f.mainKey == Keys.None then Some(NoHotkeySet)
    else if CombinationInUse(profiles, f.mainKey, f.modifiers) then Some(HotkeyInUse)
    else None
  }

  function NewProfile(f: SaveForm, id: Int32): Profile
  {
    Profile(f.name, f.gamma, f.brightness, f.contrast, f.mainKey, f.modifiers, id)
  }

  /** "Save Profile": validate, take the next id, ask for the hot key, keep the
      profile only if the hot key was granted. */
  function Save(r: Registry, f: SaveForm, granted: bool): (st: SaveStep)
    ensures st.outcome == Saved <==> Rejection(r.profiles, f) == None && granted
    ensures st.outcome != Saved ==> st.after.profiles == r.profiles
    ensures |st.calls| == if Rejection(r.profiles, f) == None then 1 else 0
  {
    match Rejection(r.profiles, f)
    case Some(e) => SaveStep(r, e, [])
    case None =>
      var p := NewProfile(f, r.counter);
      var after := Registry(if granted then r.profiles + [p] else r.profiles, Inc32(r.counter));
      SaveStep(after, if granted then Saved else RegistrationFailed, [RegisterCall(p)])
  }

  /** A blank name is reported first; nothing changes and the hot-key service
      is not asked. */
  lemma SaveRejectsBlankName(r: Registry, f: SaveForm, granted: bool)
    requires IsNullOrWhiteSpace(f.name)
    ensures Save(r, f, granted) == SaveStep(r, EmptyName, [])
  {
  }

  /** With a name, a missing main key is reported next, with no effect. */
  lemma SaveRejectsUnsetKey(r: Registry, f: SaveForm, granted: bool)
    requires !IsNullOrWhiteSpace(f.name) && f.mainKey == Keys.None
    ensures Save(r, f, granted) == SaveStep(r, NoHotkeySet, [])
  {
  }

  /** A key pair some profile already has is refused whatever the name and the
      parameters, with no effect. */
  lemma SaveRejectsDuplicate(r: Registry, f: SaveForm, granted: bool, i: nat)
    requires !IsNullOrWhiteSpace(f.name) && f.mainKey != Keys.None
    requires i < |r.profiles| && r.profiles[i].Combination() == (f.mainKey, f.modifiers)
    ensures Save(r, f, granted) == SaveStep(r, HotkeyInUse, [])
  {
  }

  /** Once validation passes the id is consumed whether or not the hot key is
      granted; only a granted hot key appends the profile, at the end, holding
      the name exactly as typed, the three parameters, the key pair and the id. */
  lemma SaveConsumesId(r: Registry, f: SaveForm, granted: bool)
    requires Rejection(r.profiles, f) == None
    ensures var s := Save(r, f, granted);
      && s.after.counter == Inc32(r.counter)
      && (r.counter < Int32Max ==> s.after.counter == r.counter + 1)
      && s.calls == [Register(r.counter, Keys.GetWin32Modifiers(f.modifiers), Keys.VirtualKeyCode(f.mainKey))]
      && (granted ==> s.outcome == Saved && |s.after.profiles| == |r.profiles| + 1
                      && s.after.profiles[..|r.profiles|] == r.profiles
                      && s.after.profiles[|r.profiles|]
                         == Profile(f.name, f.gamma, f.brightness, f.contrast, f.mainKey, f.modifiers, r.counter))
      && (!granted ==> s.outcome == RegistrationFailed && s.after.profiles == r.profiles)
  {
    var s := Save(r, f, granted);
    if granted {
      assert s.after.profiles[..|r.profiles|] == r.profiles;
    }
  }

  /** No two profiles share a key pair. */
  predicate DistinctCombinations(profiles: seq<Profile>)
  {
    forall i, j :: 0 <= i < j < |profiles| ==> profiles[i].Combination() != profiles[j].Combination()
  }

  /** Every id is below the counter, and ids rise along the list. */
  predicate IdsIncreasingBelow(profiles: seq<Profile>, counter: int)
  {
    && (forall i :: 0 <= i < |profiles| ==> profiles[i].hotkeyId < counter)
    && (forall i, j :: 0 <= i < j < |profiles| ==> profiles[i].hotkeyId < profiles[j].hotkeyId)
  }

  /** Saving never creates a second profile with the same key pair. */
  lemma SavePreservesDistinctCombinations(r: Registry, f: SaveForm, granted: bool)
    requires DistinctCombinations(r.profiles)
    ensures DistinctCombinations(Save(r, f, granted).after.profiles)
  {
    var ps := Save(r, f, granted).after.profiles;
    if Rejection(r.profiles, f) == None && granted {
      forall i, j | 0 <= i < j < |ps| ensures ps[i].Combination() != ps[j].Combination() {
        if j == |r.profiles| {
          assert ps[i] == r.profiles[i];
        }
      }
    }
  }

  /** Saving keeps every id below the counter and the ids increasing, as long
      as the counter does not wrap. */
  lemma SavePreservesIds(r: Registry, f: SaveForm, granted: bool)
    requires IdsIncreasingBelow(r.profiles, r.counter) && r.counter < Int32Max
    ensures var a := Save(r, f, granted).after;
      IdsIncreasingBelow(a.profiles, a.counter) && r.counter <= a.counter <= r.counter + 1
  {
  }

  /** A run of saves, one form and one oracle answer each. */
  function SaveAll(r: Registry, forms: seq<SaveForm>, granted: seq<bool>): Registry
    requires |forms| == |granted|
    decreases |forms|
  {
    if forms == [] then r
    else SaveAll(Save(r, forms[0], granted[0]).after, forms[1..], granted[1..])
  }

  /** A registry built only by saves never holds two equal key pairs, and its
      ids are all different, rising, and below the counter. */
  lemma {:induction false} SavesKeepRegistryInvariant(r: Registry, forms: seq<SaveForm>, granted: seq<bool>)
    requires |forms| == |granted|
    requires DistinctCombinations(r.profiles) && IdsIncreasingBelow(r.profiles, r.counter)
    requires r.counter + |forms| <= Int32Max
    ensures var a := SaveAll(r, forms, granted);
      && DistinctCombinations(a.profiles) && IdsIncreasingBelow(a.profiles, a.counter)
      && r.counter <= a.counter <= r.counter + |forms|
    decreases |forms|
  {
    if forms != [] {
      var next := Save(r, forms[0], granted[0]).after;
      SavePreservesDistinctCombinations(r, forms[0], granted[0]);
      SavePreservesIds(r, forms[0], granted[0]);
      SavesKeepRegistryInvariant(next, forms[1..], granted[1..]);
    }
  }

  /** The empty registry the form starts with. */
  function Initial(): Registry
  {
    Registry([], FirstHotkeyId)
  }

  /** Every run of saves from start-up keeps the registry invariant. */
  lemma SavesFromStartKeepInvariant(forms: seq<SaveForm>, granted: seq<bool>)
    requires |forms| == |granted| && FirstHotkeyId + |forms| <= Int32Max
    ensures var a := SaveAll(Initial(), forms, granted);
      DistinctCombinations(a.profiles) && IdsIncreasingBelow(a.profiles, a.counter)
  {
    SavesKeepRegistryInvariant(Initial(), forms, granted);
  }

  /** Every id is below the counter (the part of `IdsIncreasingBelow` a
      loaded list also meets: loaded ids need not rise and may repeat -1). */
  predicate IdsBelow(profiles: seq<Profile>, counter: int)
  {
    forall i :: 0 <= i < |profiles| ==> profiles[i].hotkeyId < counter
  }

  /** Without wrap-around, a save keeps every id below the counter. */
  lemma SaveKeepsIdsBelow(r: Registry, f: SaveForm, granted: bool)
    requires IdsBelow(r.profiles, r.counter) && r.counter < Int32Max
    ensures var a := Save(r, f, granted).after;
      IdsBelow(a.profiles, a.counter) && r.counter <= a.counter
  {
  }

  /** A run of saves keeps the profiles it starts from, in place, and appends
      only profiles whose ids are at least the starting counter, rising and
      below the final counter; if every id started below the counter, every
      id ends below it. */
  lemma {:induction false} SavesAppendFreshIds(r: Registry, forms: seq<SaveForm>, granted: seq<bool>)
    requires |forms| == |granted| && r.counter + |forms| <= Int32Max
    ensures var a := SaveAll(r, forms, granted);
      && r.counter <= a.counter <= r.counter + |forms|
      && |r.profiles| <= |a.profiles| && a.profiles[..|r.profiles|] == r.profiles
      && (forall i :: |r.profiles| <= i < |a.profiles| ==> r.counter <= a.profiles[i].hotkeyId < a.counter)
      && (forall i, j :: |r.profiles| <= i < j < |a.profiles| ==> a.profiles[i].hotkeyId < a.profiles[j].hotkeyId)
      && (IdsBelow(r.profiles, r.counter) ==> IdsBelow(a.profiles, a.counter))
    decreases |forms|
  {
    if forms != [] {
      var next := Save(r, forms[0], granted[0]).after;
      if Rejection(r.profiles, forms[0]) == None { SaveConsumesId(r, forms[0], granted[0]); }
      if IdsBelow(r.profiles, r.counter) { SaveKeepsIdsBelow(r, forms[0], granted[0]); }
      SavesAppendFreshIds(next, forms[1..], granted[1..]);
      var a := SaveAll(r, forms, granted);
      assert a == SaveAll(next, forms[1..], granted[1..]);
      assert next.profiles[..|r.profiles|] == r.profiles;
      assert a.profiles[..|r.profiles|] == r.profiles by {
        assert a.profiles[..|r.profiles|] == a.profiles[..|next.profiles|][..|r.profiles|];
      }
      forall i | |r.profiles| <= i < |next.profiles|
        ensures a.profiles[i] == next.profiles[i] && a.profiles[i].hotkeyId == r.counter
      {
        assert a.profiles[i] == a.profiles[..|next.profiles|][i];
      }
    }
  }

  // ---- Load ----

  /** After the profiles are read back each one is registered again; a refusal
      sets its id to -1 and keeps it. */
  function MarkFailed(loaded: seq<Profile>, granted: seq<bool>): (r: seq<Profile>)
    requires |granted| == |loaded|
    ensures |r| == |loaded|
    ensures forall i :: 0 <= i < |r| ==>
      r[i] == if granted[i] then loaded[i] else loaded[i].(hotkeyId := -1)
  {
    if loaded == [] then []
    else [if granted[0] then loaded[0] else loaded[0].(hotkeyId := -1)]
         + MarkFailed(loaded[1..], granted[1..])
  }

  /** The registrations asked for while loading, with the ids as read. */
  function LoadCalls(loaded: seq<Profile>): (calls: seq<HotkeyCall>)
    ensures |calls| == |loaded|
    ensures forall i :: 0 <= i < |loaded| ==> calls[i] == RegisterCall(loaded[i])
  {
    if loaded == [] then [] else [RegisterCall(loaded[0])] + LoadCalls(loaded[1..])
  }

  /** `profiles.Max(p => p.HotkeyId)`: no id in the list exceeds it. */
  function MaxId(s: seq<Profile>): (m: Int32)
    requires |s| > 0
    ensures forall i :: 0 <= i < |s| ==> s[i].hotkeyId <= m
  {
    if |s| == 1 then s[0].hotkeyId
    else
      var rest := MaxId(s[1..]);
      if s[0].hotkeyId >= rest then s[0].hotkeyId else rest
  }

  /** ... and some profile in the list has it. */
  lemma {:induction false} MaxIdAttained(s: seq<Profile>)
    requires |s| > 0
    ensures exists i :: 0 <= i < |s| && s[i].hotkeyId == MaxId(s)
  {
    if |s| > 1 {
      MaxIdAttained(s[1..]);
      var i :| 0 <= i < |s| - 1 && s[1..][i].hotkeyId == MaxId(s[1..]);
      assert s[i + 1].hotkeyId == MaxId(s[1..]);
    } else {
      assert s[0].hotkeyId == MaxId(s);
    }
  }

  /** Loading: `None` stands for a missing file (and for one that cannot be
      read, whose error is swallowed); either way nothing changes. Otherwise
      the list is replaced by what was read, with failed registrations marked,
      and a non-empty list sets the counter one past its largest id. */
  function Load(r: Registry, file: Option<seq<Profile>>, granted: seq<bool>): (a: Registry)
    requires file.Some? ==> |granted| == |file.value|
    ensures file.None? ==> a == r
    ensures file.Some? ==> |a.profiles| == |file.value|
    ensures file.Some? ==> forall i :: 0 <= i < |a.profiles| ==>
      a.profiles[i] == if granted[i] then file.value[i] else file.value[i].(hotkeyId := -1)
    ensures file == Some([]) ==> a.counter == r.counter
    ensures file.Some? && |file.value| > 0 ==> a.counter == Inc32(MaxId(a.profiles))
  {
    match file
    case None => r
    case Some(loaded) =>
      var ps := MarkFailed(loaded, granted);
      Registry(ps, if |ps| > 0 then Inc32(MaxId(ps)) else r.counter)
  }

  /** A non-empty load leaves the counter above every id it kept, so the next
      save takes an id no loaded profile has (unless the largest id is the
      largest `int`, where the counter wraps). */
  lemma LoadSetsCounterAboveIds(r: Registry, loaded: seq<Profile>, granted: seq<bool>)
    requires |granted| == |loaded| && |loaded| > 0
    requires MaxId(MarkFailed(loaded, granted)) < Int32Max
    ensures var a := Load(r, Some(loaded), granted);
      && a.counter == MaxId(a.profiles) + 1
      && forall i :: 0 <= i < |a.profiles| ==> a.profiles[i].hotkeyId < a.counter
  {
  }

  /** If every registration fails, every id becomes -1 and the counter 0. */
  lemma LoadAllRefusedCounterZero(r: Registry, loaded: seq<Profile>, granted: seq<bool>)
    requires |granted| == |loaded| && |loaded| > 0
    requires forall i :: 0 <= i < |granted| ==> !granted[i]
    ensures var a := Load(r, Some(loaded), granted);
      a.counter == 0 && forall i :: 0 <= i < |a.profiles| ==> a.profiles[i].hotkeyId == -1
  {
    var ps := MarkFailed(loaded, granted);
    MaxIdAttained(ps);
  }

  /** The first save after a load takes an id above every loaded profile's. */
  lemma LoadThenSaveTakesFreshId(r: Registry, loaded: seq<Profile>, granted: seq<bool>, f: SaveForm)
    requires |granted| == |loaded| && |loaded| > 0
    requires MaxId(MarkFailed(loaded, granted)) < Int32Max
    requires Rejection(MarkFailed(loaded, granted), f) == None
    ensures var a := Load(r, Some(loaded), granted);
      var s := Save(a, f, true);
      && |s.after.profiles| == |a.profiles| + 1
      && s.after.profiles[|a.profiles|].hotkeyId == MaxId(a.profiles) + 1
      && forall i :: 0 <= i < |a.profiles| ==> s.after.profiles[i].hotkeyId < s.after.profiles[|a.profiles|].hotkeyId
  {
    var a := Load(r, Some(loaded), granted);
    LoadSetsCounterAboveIds(r, loaded, granted);
    SaveConsumesId(a, f, true);
  }

  /** After a load, any run of saves keeps the loaded list in place and gives
      every profile it adds an id above every loaded one, the ids it hands out
      rising; every id stays below the counter (barring wrap-around). */
  lemma LoadThenSavesTakeFreshIds(r: Registry, loaded: seq<Profile>, granted: seq<bool>,
                                  forms: seq<SaveForm>, answers: seq<bool>)
    requires |granted| == |loaded| && |loaded| > 0 && |forms| == |answers|
    requires MaxId(MarkFailed(loaded, granted)) + 1 + |forms| <= Int32Max
    ensures var l := Load(r, Some(loaded), granted);
      var a := SaveAll(l, forms, answers);
      && |l.profiles| <= |a.profiles| && a.profiles[..|l.profiles|] == l.profiles
      && (forall i :: |l.profiles| <= i < |a.profiles| ==> a.profiles[i].hotkeyId > MaxId(l.profiles))
      && (forall i, j :: |l.profiles| <= i < j < |a.profiles| ==> a.profiles[i].hotkeyId < a.profiles[j].hotkeyId)
      && IdsBelow(a.profiles, a.counter)
  {
    var l := Load(r, Some(loaded), granted);
    LoadSetsCounterAboveIds(r, loaded, granted);
    SavesAppendFreshIds(l, forms, answers);
  }

  // ---- Delete ----

  /** `List.Remove` of the selected entry. The list box's selection is a
      position in the list, and `Remove` compares by reference; since every
      entry is an object of its own (each save and each load creates new
      ones), removing the selected object removes exactly that position. */
  function RemoveAt(s: seq<Profile>, i: nat): (r: seq<Profile>)
    requires i < |s|
    ensures |r| == |s| - 1
    ensures forall j :: 0 <= j < i ==> r[j] == s[j]
    ensures forall j :: i <= j < |r| ==> r[j] == s[j + 1]
  {
    s[..i] + s[i + 1..]
  }

  /** Exactly the selected entry goes, and nothing else does. */
  lemma RemoveAtMultiset(s: seq<Profile>, i: nat)
    requires i < |s|
    ensures multiset(RemoveAt(s, i)) + multiset{s[i]} == multiset(s)
  {
    assert s == s[..i] + [s[i]] + s[i + 1..];
  }

  /** "Delete Selected": with a selected profile, ask for its hot key to be
      released (the answer is ignored) and remove it; the counter stays, so an
      id is never handed out twice. */
  function Delete(r: Registry, selected: Option<nat>): (a: Registry)
    requires selected.Some? ==> selected.value < |r.profiles|
    ensures a.counter == r.counter
    ensures selected.None? ==> a == r
    ensures selected.Some? ==> |a.profiles| == |r.profiles| - 1
    ensures selected.Some? ==> a.profiles == RemoveAt(r.profiles, selected.value)
  {
    match selected
    case None => r
    case Some(i) => Registry(RemoveAt(r.profiles, i), r.counter)
  }

  /** The release request "Delete Selected" makes: none without a selection,
      else one for the selected profile's id. */
  function DeleteCalls(profiles: seq<Profile>, selected: Option<nat>): (calls: seq<HotkeyCall>)
    requires selected.Some? ==> selected.value < |profiles|
    ensures selected.None? ==> calls == []
    ensures selected.Some? ==> calls == [Unregister(profiles[selected.value].hotkeyId)]
  {
    match selected
    case None => []
    case Some(i) => [Unregister(profiles[i].hotkeyId)]
  }

  /** Dropping one entry keeps the key pairs distinct. */
  lemma DropKeepsDistinct(s: seq<Profile>, i: nat)
    requires i < |s| && DistinctCombinations(s)
    ensures DistinctCombinations(s[..i] + s[i + 1..])
  {
    var t := s[..i] + s[i + 1..];
    forall a, b | 0 <= a < b < |t| ensures t[a].Combination() != t[b].Combination() {
      var a', b' := if a < i then a else a + 1, if b < i then b else b + 1;
      assert t[a] == s[a'] && t[b] == s[b'];
    }
  }

  /** Dropping one entry keeps the ids rising and below the counter. */
  lemma DropKeepsIds(s: seq<Profile>, i: nat, counter: int)
    requires i < |s| && IdsIncreasingBelow(s, counter)
    ensures IdsIncreasingBelow(s[..i] + s[i + 1..], counter)
  {
    var t := s[..i] + s[i + 1..];
    forall a | 0 <= a < |t| ensures t[a] == s[if a < i then a else a + 1] { }
    forall a, b | 0 <= a < b < |t| ensures t[a].hotkeyId < t[b].hotkeyId {
      var a', b' := if a < i then a else a + 1, if b < i then b else b + 1;
      assert t[a] == s[a'] && t[b] == s[b'];
    }
  }

  /** Deleting the profile at position `i` releases its hot key, leaves every
      other profile, with its id, in its order, keeps the counter and the
      registry's invariants, and frees the deleted key pair for a later save. */
  lemma DeleteRemovesExactlyOne(r: Registry, i: nat)
    requires i < |r.profiles|
    ensures var a := Delete(r, Some(i));
      && multiset(a.profiles) + multiset{r.profiles[i]} == multiset(r.profiles)
      && a.counter == r.counter
      && DeleteCalls(r.profiles, Some(i)) == [Unregister(r.profiles[i].hotkeyId)]
      && (DistinctCombinations(r.profiles) ==> DistinctCombinations(a.profiles))
      && (DistinctCombinations(r.profiles) ==>
            !CombinationInUse(a.profiles, r.profiles[i].mainKey, r.profiles[i].modifiers))
      && (IdsIncreasingBelow(r.profiles, r.counter) ==> IdsIncreasingBelow(a.profiles, a.counter))
      && (IdsBelow(r.profiles, r.counter) ==> IdsBelow(a.profiles, a.counter))
  {
    var s := r.profiles;
    RemoveAtMultiset(s, i);
    if DistinctCombinations(s) {
      DropKeepsDistinct(s, i);
      var t := RemoveAt(s, i);
      forall j | 0 <= j < |t| ensures t[j].Combination() != s[i].Combination() {
        if j < i { assert t[j] == s[j]; } else { assert t[j] == s[j + 1]; }
      }
    }
    if IdsIncreasingBelow(s, r.counter) { DropKeepsIds(s, i, r.counter); }
  }

  // ---- Resolve ----

  /** The position of the first profile with the given id. */
  function FirstWithId(profiles: seq<Profile>, id: int): (r: Option<nat>)
    ensures r.Some? ==> r.value < |profiles| && profiles[r.value].hotkeyId == id
    ensures r.Some? ==> forall j :: 0 <= j < r.value ==> profiles[j].hotkeyId != id
    ensures r.None? <==> forall j :: 0 <= j < |profiles| ==> profiles[j].hotkeyId != id
  {
    if profiles == [] then None
    else if profiles[0].hotkeyId == id then Some(0)
    else match FirstWithId(profiles[1..], id)
      case None => None
      case Some(k) => Some(k + 1)
  }

  /** `FirstOrDefault(p => p.HotkeyId == id)`. */
  function Resolve(profiles: seq<Profile>, id: int): (found: Option<Profile>)
    ensures found.Some? ==> found.value in profiles && found.value.hotkeyId == id
    ensures forall k ::
      (0 <= k < |profiles| && profiles[k].hotkeyId == id && forall j :: 0 <= j < k ==> profiles[j].hotkeyId != id)
      ==> found == Some(profiles[k])
    ensures found.None? <==> forall j :: 0 <= j < |profiles| ==> profiles[j].hotkeyId != id
  {
    match FirstWithId(profiles, id)
    case None => None
    case Some(k) => Some(profiles[k])
  }

  /** In a registry built by saves, the profile found for an id is the one
      carrying it. */
  lemma ResolveFindsTheOwner(profiles: seq<Profile>, counter: int, k: nat)
    requires IdsIncreasingBelow(profiles, counter) && k < |profiles|
    ensures Resolve(profiles, profiles[k].hotkeyId) == Some(profiles[k])
  {
    var r := FirstWithId(profiles, profiles[k].hotkeyId);
    assert r.Some?;
  }

  // ---- Shutdown ----

  /** Closing the form asks for every profile's hot key to be released, in list order. */
  function UnregisterAll(profiles: seq<Profile>): (calls: seq<HotkeyCall>)
    ensures |calls| == |profiles|
    ensures forall i :: 0 <= i < |profiles| ==> calls[i] == Unregister(profiles[i].hotkeyId)
  {
    if profiles == [] then [] else [Unregister(profiles[0].hotkeyId)] + UnregisterAll(profiles[1..])
  }
}
