/** The evdev key codes that a shortcut combo can name: the four pairs of
    left/right modifier keys and the letter keys a to z. */
module KeyCodes {

  const KeyLeftCtrl := 29
  const KeyRightCtrl := 97
  const KeyLeftAlt := 56
  const KeyRightAlt := 100
  const KeyLeftShift := 42
  const KeyRightShift := 54
  const KeyLeftMeta := 125
  const KeyRightMeta := 126

  /** The event type of key events. */
  const EvKey := 1

  /** The evdev code of each lower-case letter key (A = 30, B = 48, ...). */
  const KeyLetters: map<char, int> := map[
    'a' := 30, 'b' := 48, 'c' := 46, 'd' := 32, 'e' := 18, 'f' := 33, 'g' := 34, 'h' := 35,
    'i' := 23, 'j' := 36, 'k' := 37, 'l' := 38, 'm' := 50, 'n' := 49, 'o' := 24, 'p' := 25,
    'q' := 16, 'r' := 19, 's' := 31, 't' := 20, 'u' := 22, 'v' := 47, 'w' := 17, 'x' := 45,
    'y' := 21, 'z' := 44
  ]

  /** Groups of physically equivalent keys: either one satisfies the group. */
  const CtrlGroup: set<int> := {KeyLeftCtrl, KeyRightCtrl}
  const AltGroup: set<int> := {KeyLeftAlt, KeyRightAlt}
  const ShiftGroup: set<int> := {KeyLeftShift, KeyRightShift}
  const MetaGroup: set<int> := {KeyLeftMeta, KeyRightMeta}

  /** Every modifier key code. */
  const ModifierCodes: set<int> := CtrlGroup + AltGroup + ShiftGroup + MetaGroup

  /** The letter table covers exactly the lower-case ASCII letters. */
  lemma LetterKeys(c: char)
    ensures c in KeyLetters <==> 'a' <= c <= 'z'
  {
  }

  /** Different letters have different key codes, and no letter shares a
      code with a modifier key. */
  lemma LetterCodesDistinct(c: char, d: char)
    requires c in KeyLetters && d in KeyLetters
    ensures c != d ==> KeyLetters[c] != KeyLetters[d]
    ensures KeyLetters[c] !in ModifierCodes
  {
  }
}
