/** Parsing a combo string such as "Ctrl+Alt+R" into the list of key groups
    that must all be held for the combo to fire. */
module ComboParse {
  import opened Options
  import opened KeyCodes
  import opened ComboText

  /** The words that name a modifier key. */
  const ModifierWords: set<string> := {"ctrl", "control", "alt", "shift", "super", "meta", "win"}

  /** The groups a part can produce: one of the four modifier pairs, or the
      single key of a letter. */
  ghost predicate IsKeyGroup(g: set<int>)
  {
    g == CtrlGroup || g == AltGroup || g == ShiftGroup || g == MetaGroup ||
    exists c :: c in KeyLetters && g == {KeyLetters[c]}
  }

  /** The key group one (already normalized) part names, or None when the
      part is not recognised. */
  function PartGroup(part: string): (r: Option<set<int>>)
    ensures r.Some? <==> part in ModifierWords || (|part| == 1 && 'a' <= part[0] <= 'z')
    ensures r.Some? ==> r.value != {} && IsKeyGroup(r.value)
  {
    if part == "ctrl" || part == "control" then Some(CtrlGroup)
    else if part == "alt" then Some(AltGroup)
    else if part == "shift" then Some(ShiftGroup)
    else if part == "super" || part == "meta" || part == "win" then Some(MetaGroup)
    else if |part| == 1 && part[0] in KeyLetters then Some({KeyLetters[part[0]]})
    else None
  }

  /** The groups of the recognised parts, in the order of the parts;
      unrecognised parts contribute nothing. */
  function ParsedGroups(parts: seq<string>): (groups: seq<set<int>>)
    ensures |groups| <= |parts|
    ensures forall i :: 0 <= i < |groups| ==> groups[i] != {} && IsKeyGroup(groups[i])
  {
    if parts == [] then [] else ToSeq(PartGroup(parts[0])) + ParsedGroups(parts[1..])
  }

  /** The groups a whole combo string denotes. */
  function ComboGroups(combo: string): seq<set<int>>
  {
    ParsedGroups(Split(Normalize(combo)))
  }

  /** Parsing is compositional: the groups of consecutive runs of parts are
      concatenated, so the output keeps the order of the input parts. */
  lemma {:induction false} ParsedGroupsAppend(a: seq<string>, b: seq<string>)
    ensures ParsedGroups(a + b) == ParsedGroups(a) + ParsedGroups(b)
  {
    if a == [] {
      assert a + b == b;
    } else {
      assert (a + b)[1..] == a[1..] + b;
      ParsedGroupsAppend(a[1..], b);
    }
  }

  /** No groups come out exactly when no part is recognised. */
  lemma {:induction false} ParsedGroupsEmpty(parts: seq<string>)
    ensures ParsedGroups(parts) == [] <==> forall i :: 0 <= i < |parts| ==> PartGroup(parts[i]).None?
  {
    if parts != [] {
      ParsedGroupsEmpty(parts[1..]);
      assert forall i :: 1 <= i < |parts| ==> parts[i] == parts[1..][i - 1];
    }
  }

  /** The loop of the parser: walk the parts left to right, appending the
      group of every recognised part. */
  method ParseCombo(combo: string) returns (groups: seq<set<int>>)
    ensures groups == ComboGroups(combo)
  {
    groups := [];
    var parts := Split(Normalize(combo));
    var i := 0;
    while i < |parts|
      invariant 0 <= i <= |parts|
      invariant groups == ParsedGroups(parts[..i])
    {
      ParsedGroupsAppend(parts[..i], [parts[i]]);
      assert parts[..i + 1] == parts[..i] + [parts[i]];
      var g := PartGroup(parts[i]);
      if g.Some? {
        groups := groups + [g.value];
      }
      i := i + 1;
    }
    assert parts[..i] == parts;
  }

  /** A combo string never yields more groups than it has '+'-separated
      parts. */
  lemma ComboGroupsBound(combo: string)
    ensures |ComboGroups(combo)| <= Count('+', combo) + 1
  {
    NormalizeKeepsSeparators(combo);
  }

  /** Case and spaces do not matter: a combo string parses like its
      normalized form. */
  lemma ComboGroupsOfNormalized(combo: string)
    ensures ComboGroups(Normalize(combo)) == ComboGroups(combo)
  {
    NormalizeIdempotent(combo);
  }

  /** Removing a space anywhere does not change the groups. */
  lemma ComboGroupsIgnoreSpace(a: string, b: string)
    ensures ComboGroups(a + " " + b) == ComboGroups(a + b)
  {
    NormalizeAppend(a + " ", b);
    NormalizeAppend(a, " ");
    NormalizeAppend(a, b);
    assert Normalize(" ") == [];
    assert Normalize(a + " " + b) == Normalize(a + b);
  }

  /** Lower-casing a character anywhere does not change the groups. */
  lemma ComboGroupsIgnoreCase(a: string, c: char, b: string)
    ensures ComboGroups(a + [c] + b) == ComboGroups(a + [LowerChar(c)] + b)
  {
    NormalizeAppend(a + [c], b);
    NormalizeAppend(a, [c]);
    NormalizeAppend(a + [LowerChar(c)], b);
    NormalizeAppend(a, [LowerChar(c)]);
    assert Normalize([c]) == Normalize([LowerChar(c)]);
  }

  /** Strings that agree once lower-cased and stripped of spaces parse to
      the same groups. */
  lemma ComboGroupsEquivalent(s: string, t: string)
    requires Normalize(s) == Normalize(t)
    ensures ComboGroups(s) == ComboGroups(t)
  {
  }

  /** The modifier words and the key groups they name. */
  lemma ModifierWordGroups()
    ensures PartGroup("ctrl") == PartGroup("control") == Some({29, 97})
    ensures PartGroup("alt") == Some({56, 100})
    ensures PartGroup("shift") == Some({42, 54})
    ensures PartGroup("super") == PartGroup("meta") == PartGroup("win") == Some({125, 126})
  {
  }

  /** A one-letter part names the single key of that letter. */
  lemma LetterPartGroup(c: char)
    requires 'a' <= c <= 'z'
    ensures PartGroup([c]) == Some({KeyLetters[c]})
  {
  }
}
