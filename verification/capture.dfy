/** The hot-key capture box: key-downs update a pending (main key, modifiers)
    pair, which a save later consumes. `Keys.None` as the main key means
    nothing has been captured. */
module HotkeyCapture {
  import Keys
  import opened Wrappers
  import opened HotkeyText

  /** A key-down as the box receives it: the key code and the modifiers held. */
  datatype KeyEvent = KeyEvent(keyCode: Keys.KeyValue, modifiers: Keys.KeyValue)

  datatype Pending = Pending(mainKey: Keys.KeyValue, modifiers: Keys.KeyValue)

  /** The pair after a reset: nothing captured. */
  const Unset: Pending := Pending(Keys.None, Keys.None)

  const ClickToSet: string := "(Click to Set)"
  const PressKeys: string := "Press Keys..."

  predicate IsSet(p: Pending)
  {
    p.mainKey != Keys.None
  }

  /** A modifier pressed alone is ignored; any other key replaces the pair. */
  function OnKeyDown(p: Pending, e: KeyEvent): (q: Pending)
    ensures Keys.IsModifierKey(e.keyCode) ==> q == p
    ensures !Keys.IsModifierKey(e.keyCode) ==> q.mainKey == e.keyCode && q.modifiers == e.modifiers
  {
    if Keys.IsModifierKey(e.keyCode) then p else Pending(e.keyCode, e.modifiers)
  }

  /** The caption the box shows when it loses focus. */
  function LeaveCaption(p: Pending, keyName: string): (s: string)
    ensures !IsSet(p) ==> s == ClickToSet
    ensures IsSet(p) ==> s == FormatHotkeyString(p.modifiers, keyName)
  {
    if p.mainKey != Keys.None then FormatHotkeyString(p.modifiers, keyName) else ClickToSet
  }

  /** The pair after a run of key-downs, taken in order: a run of lone
      modifiers leaves it, and a run ending in any other key leaves that key's
      pair. */
  function Replay(p: Pending, events: seq<KeyEvent>): (q: Pending)
    ensures (forall i :: 0 <= i < |events| ==> Keys.IsModifierKey(events[i].keyCode)) ==> q == p
    ensures |events| > 0 && !Keys.IsModifierKey(events[|events| - 1].keyCode) ==>
      q == Pending(events[|events| - 1].keyCode, events[|events| - 1].modifiers)
    decreases |events|
  {
    if events == [] then p else Replay(OnKeyDown(p, events[0]), events[1..])
  }

  /** The position of the last key-down in a run that is not a lone modifier. */
  function LastMainKeyIndex(events: seq<KeyEvent>): (r: Option<nat>)
    ensures r.Some? ==> r.value < |events| && !Keys.IsModifierKey(events[r.value].keyCode)
    ensures r.Some? ==> forall j :: r.value < j < |events| ==> Keys.IsModifierKey(events[j].keyCode)
    ensures r.None? ==> forall i :: 0 <= i < |events| ==> Keys.IsModifierKey(events[i].keyCode)
    decreases |events|
  {
    if events == [] then None
    else if !Keys.IsModifierKey(events[|events| - 1].keyCode) then Some(|events| - 1)
    else LastMainKeyIndex(events[..|events| - 1])
  }

  lemma {:induction false} ReplaySnoc(p: Pending, events: seq<KeyEvent>, e: KeyEvent)
    ensures Replay(p, events + [e]) == OnKeyDown(Replay(p, events), e)
    decreases |events|
  {
    if events == [] {
      assert [e][1..] == [];
    } else {
      assert (events + [e])[1..] == events[1..] + [e];
      ReplaySnoc(OnKeyDown(p, events[0]), events[1..], e);
    }
  }

  /** The last non-modifier key-down wins: the pair is that event's, or the
      pair from before if every key-down was a lone modifier. */
  lemma {:induction false} LastKeyWins(p: Pending, events: seq<KeyEvent>)
    ensures Replay(p, events) == match LastMainKeyIndex(events)
      case None => p
      case Some(i) => Pending(events[i].keyCode, events[i].modifiers)
    decreases |events|
  {
    if events != [] {
      var init, last := events[..|events| - 1], events[|events| - 1];
      assert events == init + [last];
      ReplaySnoc(p, init, last);
      LastKeyWins(p, init);
    }
  }
}
