# Global shortcut logic of telly-spelly, in Dafny

telly-spelly is a desktop dictation tool. It starts and stops recording on
global keyboard shortcuts. A background thread reads raw evdev key events
and keeps the set of keys currently held. On every key press it checks two
chorded combos, by default `ctrl+alt+r` (start) and `ctrl+alt+s` (stop), and
emits `"start"` or `"stop"` to the application.

This project models that logic from `shortcuts.py`:

- `KeyCodes` (key_codes.dfy): the evdev codes of the modifier keys and the
  letter table.
- `ComboText` (combo_text.dfy): the text preparation of a combo string. It
  lower-cases the string, removes spaces and splits it on `+` the way
  Python's `str.split` does. The split is proved to invert joining.
- `ComboParse` (combo_parse.dfy): `_parse_combo`. `PartGroup` maps one part
  to its key group. `ParsedGroups` and `ComboGroups` are the specification,
  and the method `ParseCombo` is the source's loop, proved against them.
- `ComboMatch` (combo_match.dfy): `_combo_matches`. A combo matches when it
  has at least one group and every group shares a key with the pressed set.
- `Listener` (listener.dfy): the class `KeyboardListener` and its fields.
  `HandleKeyEvent`, `CheckCombos` and `Stop` update the fields in place. The
  emitted signal is modelled as the field `notices`, a log that each
  emission appends to. `HandleEvents` dispatches a batch of events read
  from a device. The pure functions `ComboNotice`, `PressedAfter` and
  `NoticesOf` describe one check and a whole event sequence, and lemmas
  relate them.

## Model

| member | source | states |
|---|---|---|
| KeyCodes.LetterKeys | shortcuts.py:23-28 | the letter table has an entry exactly for the characters `a` to `z` |
| KeyCodes.LetterCodesDistinct | shortcuts.py:12-28 | different letters have different key codes, and no letter code is a modifier code |
| ComboText.Lower | shortcuts.py:112 | lower-casing keeps the length and lower-cases each character on its own |
| ComboText.RemoveSpaces | shortcuts.py:112 | the result has no space, is shorter by the number of spaces, and keeps the count of every other character |
| ComboText.NormalizeAppend | shortcuts.py:112 | lower-casing then removing spaces distributes over concatenation |
| ComboText.NormalizeIdempotent | shortcuts.py:112 | normalizing a normalized combo string changes nothing |
| ComboText.NormalizeFixed | shortcuts.py:112 | a string without spaces or upper-case letters is already normalized |
| ComboText.NormalizeKeepsSeparators | shortcuts.py:112 | normalizing keeps every `+` |
| ComboText.Split | shortcuts.py:112 | splitting gives one more part than there are `+` signs, and no part contains `+` |
| ComboText.JoinSplit | shortcuts.py:112 | joining the parts with `+` gives back the string, so splitting loses nothing |
| ComboText.SplitJoin | shortcuts.py:112 | splitting the join of `+`-free parts gives back those parts |
| ComboParse.PartGroup | shortcuts.py:115-124 | a part is recognised exactly when it is a modifier word or a single letter `a`-`z`; the group it names is non-empty and is a modifier pair or a letter's key |
| ComboParse.ModifierWordGroups | shortcuts.py:115-122 | `ctrl`/`control` name {29, 97}, `alt` names {56, 100}, `shift` names {42, 54}, `super`/`meta`/`win` name {125, 126} |
| ComboParse.LetterPartGroup | shortcuts.py:123-124 | a one-letter part names the singleton group of that letter's code |
| ComboParse.ParsedGroups | shortcuts.py:114-124 | at most one group per part, and every group is non-empty and a valid key group |
| ComboParse.ParsedGroupsAppend | shortcuts.py:114-124 | the groups of consecutive parts are concatenated, so the output follows the order of the parts |
| ComboParse.ParsedGroupsEmpty | shortcuts.py:114-126 | no groups come out exactly when no part is recognised (unrecognised parts are dropped) |
| ComboParse.ParseCombo | shortcuts.py:105-126 | the loop over the parts returns the groups of the recognised parts, in order |
| ComboParse.ComboGroupsBound | shortcuts.py:112-126 | a combo string never yields more groups than it has `+`-separated parts |
| ComboParse.ComboGroupsOfNormalized | shortcuts.py:112 | a combo string parses like its lower-cased, space-free form |
| ComboParse.ComboGroupsIgnoreSpace | shortcuts.py:112 | removing a space anywhere does not change the groups |
| ComboParse.ComboGroupsIgnoreCase | shortcuts.py:112 | lower-casing any one character does not change the groups |
| ComboParse.ComboGroupsEquivalent | shortcuts.py:112 | strings equal after lower-casing and removing spaces parse to the same groups |
| ComboMatch.AllGroupsHeld | shortcuts.py:133-136 | the scan over the groups succeeds exactly when every group has a pressed key |
| ComboMatch.ComboMatches | shortcuts.py:129-136 | false for an empty group list; otherwise true exactly when every group shares a key with the pressed set |
| ComboMatch.MatchMonotone | shortcuts.py:133-136 | pressing more keys never turns a match into a non-match |
| ComboMatch.UnrelatedKey | shortcuts.py:133-136 | adding or removing a key that is in no group does not change the match |
| Listener.ComboNotice | shortcuts.py:91-98 | one check emits at most one notification: "start" exactly when the start combo matches, "stop" exactly when only the stop combo matches |
| Listener.SameCombosNeverStop | shortcuts.py:93-98 | when both combos are the same, "stop" is never emitted |
| Listener.PressWhileStartHeld | shortcuts.py:85-98 | while the start combo is held, any further press emits "start" again |
| Listener.UnrelatedPress | shortcuts.py:85-98 | pressing a key in neither combo emits what a check just before it would have |
| Listener.PressedAfterMembership | shortcuts.py:83-89 | after a sequence of events, a key is held exactly when its last press has no release after it, or it was held before and was never released |
| Listener.NoticesOf | shortcuts.py:69-71 | a sequence of events emits no more notifications than it has key presses, and each is "start" or "stop" |
| Listener.CtrlAltLetter | shortcuts.py:149 | `ctrl+alt+<letter>`, the shape of both default combos, parses to Ctrl, Alt and that letter's key, in that order |
| Listener.DefaultComboNotices | shortcuts.py:149 | with the groups of the default combos (Ctrl, Alt, R) and (Ctrl, Alt, S), Ctrl+Alt+R emits "start", Ctrl+Alt+S emits "stop", holding R and S together emits "start", and Ctrl+Alt alone emits nothing |
| Listener.UnrecognisedComboNeverFires | shortcuts.py:129-132 | a combo string none of whose parts is recognised never matches |
| Listener.KeyboardListener.constructor | shortcuts.py:36-43 | a new listener is running, holds no keys, has empty groups and has emitted nothing |
| Listener.KeyboardListener.LoadCombos | shortcuts.py:59-60 | the start and stop groups become the parses of the two combo strings |
| Listener.KeyboardListener.HandleKeyEvent | shortcuts.py:83-89 | a press adds the key and then emits at most one notification; a release removes the key and emits nothing; any other value changes nothing; the groups and the running flag are untouched |
| Listener.KeyboardListener.CheckCombos | shortcuts.py:91-98 | appends exactly the notification `ComboNotice` gives for the held keys and changes nothing else |
| Listener.KeyboardListener.Stop | shortcuts.py:100-102 | clears the running flag and touches nothing else |
| Listener.KeyboardListener.HandleEvents | shortcuts.py:67-71 | after a batch of events the held keys and the emitted log are those that `PressedAfter` and `NoticesOf` give; non-key events are skipped |

## Left out

- `KeyboardListener.run` beyond the dispatch of one batch: device discovery, the check for keyboards, `select` polling with its 0.1 s timeout, reads that fail with `OSError`, and the logging of import, permission and device errors. This is I/O over the evdev library. `HandleEvents` takes the events a read returned as its parameter.
- The loop `while self._running` and the thread itself. `Stop` models only the flag that ends the loop. Concurrency between the listener thread and the caller of `stop` is not modelled.
- `GlobalShortcuts`: Qt signal wiring, thread start, `wait(1000)` and `__del__`. This is GUI and thread plumbing. The Qt signal `key_combo_pressed` is modelled as the `notices` log.
- ComboText.Lower: lower-cases only the ASCII letters `A`-`Z`. Python's `str.lower` also lower-cases other Unicode letters, for example the Kelvin sign U+212A to `k`. The model therefore does not recognise such a character as a letter part.
- Logging calls throughout.
- volume_meter.py and install.py are not part of this model. The first is floating-point smoothing and Qt painting; the second is installer I/O.
