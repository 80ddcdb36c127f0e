/** The keyboard listener: it tracks which keys are held from a stream of
    key events, and on every key press checks the start and stop combos,
    raising at most one notification. */
module Listener {
  import opened Options
  import opened KeyCodes
  import opened ComboText
  import opened ComboParse
  import opened ComboMatch

  /** Values of a key event. */
  const Release := 0
  const Press := 1
  const Repeat := 2

  /** An input event as read from a device. */
  datatype InputEvent = InputEvent(evType: int, code: int, value: int)

  /** The notification raised after a key press: "start" whenever the start
      combo is held, otherwise "stop" when the stop combo is held, otherwise
      nothing. */
  function ComboNotice(startGroups: seq<set<int>>, stopGroups: seq<set<int>>, pressed: set<int>): (r: Option<string>)
    ensures r.Some? ==> r.value == "start" || r.value == "stop"
    ensures r == Some("start") <==> ComboMatches(startGroups, pressed)
    ensures r == Some("stop") <==> !ComboMatches(startGroups, pressed) && ComboMatches(stopGroups, pressed)
  {
    if ComboMatches(startGroups, pressed) then Some("start")
    else if ComboMatches(stopGroups, pressed) then Some("stop")
    else None
  }

  /** The held keys after one key event with code `code` and value `value`. */
  function KeyStep(pressed: set<int>, code: int, value: int): set<int>
  {
    if value == Press then pressed + {code}
    else if value == Release then pressed - {code}
    else pressed
  }

  /** The held keys after a sequence of events; events of other types than
      key events are skipped. */
  function PressedAfter(pressed: set<int>, events: seq<InputEvent>): set<int>
  {
    if events == [] then pressed
    else
      var before := PressedAfter(pressed, events[..|events| - 1]);
      var e := events[|events| - 1];
      if e.evType == EvKey then KeyStep(before, e.code, e.value) else before
  }

  /** Number of key presses in `events`. */
  function PressCount(events: seq<InputEvent>): nat
  {
    if events == [] then 0
    else
      var e := events[|events| - 1];
      PressCount(events[..|events| - 1]) + (if e.evType == EvKey && e.value == Press then 1 else 0)
  }

  /** The notifications a sequence of events raises, in order: each key
      press raises at most one, "start" or "stop". */
  function NoticesOf(startGroups: seq<set<int>>, stopGroups: seq<set<int>>, pressed: set<int>,
                     events: seq<InputEvent>): (r: seq<string>)
    ensures |r| <= PressCount(events)
    ensures forall i :: 0 <= i < |r| ==> r[i] == "start" || r[i] == "stop"
  {
    if events == [] then []
    else
      var e := events[|events| - 1];
      NoticesOf(startGroups, stopGroups, pressed, events[..|events| - 1]) +
        (if e.evType == EvKey && e.value == Press
         then ToSeq(ComboNotice(startGroups, stopGroups, PressedAfter(pressed, events)))
         else [])
  }

  predicate IsKeyEvent(e: InputEvent, code: int, value: int)
  {
    e.evType == EvKey && e.code == code && e.value == value
  }

  /** No release of `code` among the events from index `from` on. */
  ghost predicate NoReleaseFrom(events: seq<InputEvent>, code: int, from: nat)
  {
    forall j :: from <= j < |events| ==> !IsKeyEvent(events[j], code, Release)
  }

  /** `code` is held after `events`: it was pressed and not released since,
      or it was held before and never released. */
  ghost predicate HeldAfter(pressed: set<int>, events: seq<InputEvent>, code: int)
  {
    (exists i :: 0 <= i < |events| && IsKeyEvent(events[i], code, Press) && NoReleaseFrom(events, code, i + 1))
    || (code in pressed && NoReleaseFrom(events, code, 0))
  }

  /** A key is in the pressed set after a sequence of events exactly when
      its last press has not been followed by a release (or, with no press,
      it was held at the start and never released). Repeats and events of
      other types do not matter. */
  lemma {:induction false} PressedAfterMembership(pressed: set<int>, events: seq<InputEvent>, code: int)
    ensures code in PressedAfter(pressed, events) <==> HeldAfter(pressed, events, code)
  {
    if events != [] {
      var n := |events| - 1;
      var init := events[..n];
      var e := events[n];
      PressedAfterMembership(pressed, init, code);
      assert forall j :: 0 <= j < n ==> events[j] == init[j];
      if IsKeyEvent(e, code, Press) {
        assert NoReleaseFrom(events, code, n + 1);
      } else if IsKeyEvent(e, code, Release) {
        assert !NoReleaseFrom(events, code, 0);
        forall i | 0 <= i < |events| && IsKeyEvent(events[i], code, Press)
          ensures !NoReleaseFrom(events, code, i + 1)
        {
          assert i < n;
        }
      } else {
        assert code in PressedAfter(pressed, events) <==> code in PressedAfter(pressed, init);
        forall i | 0 <= i <= n
          ensures NoReleaseFrom(events, code, i) <==> NoReleaseFrom(init, code, i)
        {
        }
        if HeldAfter(pressed, events, code) {
          if i :| 0 <= i < |events| && IsKeyEvent(events[i], code, Press) && NoReleaseFrom(events, code, i + 1) {
            assert i < n;
            assert IsKeyEvent(init[i], code, Press);
          }
        }
        if HeldAfter(pressed, init, code) {
          if i :| 0 <= i < |init| && IsKeyEvent(init[i], code, Press) && NoReleaseFrom(init, code, i + 1) {
            assert IsKeyEvent(events[i], code, Press);
          }
        }
      }
    }
  }

  /** While the start combo is held, every further key press raises "start"
      again, whatever key it is. */
  lemma PressWhileStartHeld(startGroups: seq<set<int>>, stopGroups: seq<set<int>>, pressed: set<int>, code: int)
    requires ComboMatches(startGroups, pressed)
    ensures ComboNotice(startGroups, stopGroups, KeyStep(pressed, code, Press)) == Some("start")
  {
  }

  /** Pressing a key that belongs to neither combo raises the same
      notification a check before it would have. */
  lemma UnrelatedPress(startGroups: seq<set<int>>, stopGroups: seq<set<int>>, pressed: set<int>, code: int)
    requires forall i :: 0 <= i < |startGroups| ==> code !in startGroups[i]
    requires forall i :: 0 <= i < |stopGroups| ==> code !in stopGroups[i]
    ensures ComboNotice(startGroups, stopGroups, KeyStep(pressed, code, Press)) == ComboNotice(startGroups, stopGroups, pressed)
  {
  }

  /** When the stop combo is the start combo, "stop" is never raised. */
  lemma SameCombosNeverStop(groups: seq<set<int>>, pressed: set<int>)
    ensures ComboNotice(groups, groups, pressed) != Some("stop")
  {
  }

  /** The default combos "ctrl+alt+r" and "ctrl+alt+s", and any other
      "ctrl+alt+<letter>": Ctrl, then Alt, then the letter's key. */
  lemma CtrlAltLetter(letter: char)
    requires 'a' <= letter <= 'z'
    ensures ComboGroups("ctrl+alt+" + [letter]) == [CtrlGroup, AltGroup, {KeyLetters[letter]}]
  {
    var combo := "ctrl+alt+" + [letter];
    var parts := ["ctrl", "alt", [letter]];
    assert Join(parts[2..]) == [letter];
    assert Join(parts[1..]) == "alt" + "+" + [letter];
    assert Join(parts) == combo;
    NormalizeFixed(combo);
    SplitJoin(parts);
    LetterPartGroup(letter);
    assert parts == ["ctrl"] + (["alt"] + [[letter]]);
    ParsedGroupsAppend(["ctrl"], ["alt"] + [[letter]]);
    ParsedGroupsAppend(["alt"], [[letter]]);
  }

  /** With the default combos, whose groups CtrlAltLetter gives, Ctrl+Alt+R
      raises "start" and Ctrl+Alt+S raises "stop"; holding both letters
      raises "start", since the start combo is checked first; Ctrl+Alt alone
      raises nothing. */
  lemma DefaultComboNotices()
    ensures ComboNotice([CtrlGroup, AltGroup, {19}], [CtrlGroup, AltGroup, {31}], {29, 56, 19}) == Some("start")
    ensures ComboNotice([CtrlGroup, AltGroup, {19}], [CtrlGroup, AltGroup, {31}], {97, 100, 31}) == Some("stop")
    ensures ComboNotice([CtrlGroup, AltGroup, {19}], [CtrlGroup, AltGroup, {31}], {29, 100, 19, 31}) == Some("start")
    ensures ComboNotice([CtrlGroup, AltGroup, {19}], [CtrlGroup, AltGroup, {31}], {29, 56}) == None
  {
    var start, stop := [CtrlGroup, AltGroup, {19}], [CtrlGroup, AltGroup, {31}];
    assert GroupHeld(start[0], {29, 56, 19}) && GroupHeld(start[1], {29, 56, 19}) && GroupHeld(start[2], {29, 56, 19});
    assert !GroupHeld(start[2], {97, 100, 31});
    assert GroupHeld(stop[0], {97, 100, 31}) && GroupHeld(stop[1], {97, 100, 31}) && GroupHeld(stop[2], {97, 100, 31});
    assert GroupHeld(start[0], {29, 100, 19, 31}) && GroupHeld(start[1], {29, 100, 19, 31});
    assert GroupHeld(start[2], {29, 100, 19, 31});
    assert !GroupHeld(start[2], {29, 56}) && !GroupHeld(stop[2], {29, 56});
  }

  /** A combo string none of whose parts is recognised never fires. */
  lemma UnrecognisedComboNeverFires(combo: string, pressed: set<int>)
    requires forall p :: p in Split(Normalize(combo)) ==> PartGroup(p).None?
    ensures !ComboMatches(ComboGroups(combo), pressed)
  {
    ParsedGroupsEmpty(Split(Normalize(combo)));
  }

  /** The listener thread's state. `notices` records, in order, every
      notification emitted to the application. */
  class KeyboardListener {
    const startCombo: string
    const stopCombo: string
    var running: bool
    var pressedKeys: set<int>
    var startGroups: seq<set<int>>
    var stopGroups: seq<set<int>>
    var notices: seq<string>

    constructor (startCombo: string, stopCombo: string)
      ensures this.startCombo == startCombo && this.stopCombo == stopCombo
      ensures running && pressedKeys == {}
      ensures startGroups == [] && stopGroups == [] && notices == []
    {
      this.startCombo := startCombo;
      this.stopCombo := stopCombo;
      running := true;
      pressedKeys := {};
      startGroups := [];
      stopGroups := [];
      notices := [];
    }

    /** Parse both combo strings into their key groups. */
    method LoadCombos()
      modifies this`startGroups, this`stopGroups
      ensures startGroups == ComboGroups(startCombo)
      ensures stopGroups == ComboGroups(stopCombo)
    {
      startGroups := ParseCombo(startCombo);
      stopGroups := ParseCombo(stopCombo);
    }

    /** Handle one key event: a press adds the key and checks the combos, a
        release removes it, anything else (a repeat) is ignored. */
    method HandleKeyEvent(code: int, value: int)
      modifies this`pressedKeys, this`notices
      ensures value == Press ==> pressedKeys == old(pressedKeys) + {code}
      ensures value == Release ==> pressedKeys == old(pressedKeys) - {code}
      ensures value != Press && value != Release ==> pressedKeys == old(pressedKeys)
      ensures notices == old(notices) +
        (if value == Press then ToSeq(ComboNotice(startGroups, stopGroups, pressedKeys)) else [])
    {
      if value == Press {
        pressedKeys := pressedKeys + {code};
        CheckCombos();
      } else if value == Release {
        pressedKeys := pressedKeys - {code};
      }
    }

    /** Emit "start" if the start combo is held, else "stop" if the stop
        combo is held, else nothing. */
    method CheckCombos()
      modifies this`notices
      ensures notices == old(notices) + ToSeq(ComboNotice(startGroups, stopGroups, pressedKeys))
    {
      if ComboMatches(startGroups, pressedKeys) {
        notices := notices + ["start"];
      } else if ComboMatches(stopGroups, pressedKeys) {
        notices := notices + ["stop"];
      }
    }

    /** Ask the polling loop to end. */
    method Stop()
      modifies this`running
      ensures !running
    {
      running := false;
    }

    /** Dispatch a batch of events read from a device: key events go to
        HandleKeyEvent, other events are skipped. */
    method HandleEvents(events: seq<InputEvent>)
      modifies this`pressedKeys, this`notices
      ensures pressedKeys == PressedAfter(old(pressedKeys), events)
      ensures notices == old(notices) + NoticesOf(startGroups, stopGroups, old(pressedKeys), events)
    {
      var i := 0;
      while i < |events|
        invariant 0 <= i <= |events|
        invariant pressedKeys == PressedAfter(old(pressedKeys), events[..i])
        invariant notices == old(notices) + NoticesOf(startGroups, stopGroups, old(pressedKeys), events[..i])
      {
        var e := events[i];
        assert events[..i + 1][..i] == events[..i];
        if e.evType == EvKey {
          HandleKeyEvent(e.code, e.value);
        }
        i := i + 1;
      }
      assert events[..i] == events;
    }
  }
}
