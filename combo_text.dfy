/** The text preparation a combo string goes through before its parts are
    looked up: lower-casing, removal of every space, and splitting on '+'
    with the semantics of Python's `str.split('+')` (an empty string gives
    one empty part; neighbouring separators give an empty part between
    them). */
module ComboText {

  /** Number of occurrences of `c` in `s`. */
  function Count(c: char, s: string): nat
  {
    if s == [] then 0 else (if s[0] == c then 1 else 0) + Count(c, s[1..])
  }

  lemma {:induction false} CountAppend(c: char, a: string, b: string)
    ensures Count(c, a + b) == Count(c, a) + Count(c, b)
  {
    if a == [] {
      assert a + b == b;
    } else {
      assert (a + b)[1..] == a[1..] + b;
      CountAppend(c, a[1..], b);
    }
  }

  /** ASCII lower-casing of one character; every other character is kept. */
  function LowerChar(c: char): (r: char)
    ensures !('A' <= r <= 'Z')
    ensures 'A' <= c <= 'Z' ==> r as int == c as int + 32
    ensures !('A' <= c <= 'Z') ==> r == c
  {
    if 'A' <= c <= 'Z' then (c as int - 'A' as int + 'a' as int) as char else c
  }

  /** The string lower-cased character by character. */
  function Lower(s: string): (r: string)
    ensures |r| == |s|
    ensures forall i :: 0 <= i < |s| ==> r[i] == LowerChar(s[i])
  {
    if s == [] then [] else [LowerChar(s[0])] + Lower(s[1..])
  }

  /** The string with every space removed and every other character kept,
      in order. */
  function RemoveSpaces(s: string): (r: string)
    ensures ' ' !in r
    ensures |r| == |s| - Count(' ', s)
    ensures forall c :: c != ' ' ==> Count(c, r) == Count(c, s)
  {
    if s == [] then []
    else if s[0] == ' ' then RemoveSpaces(s[1..])
    else [s[0]] + RemoveSpaces(s[1..])
  }

  /** The combo string as it is split: lower-cased, then without spaces. */
  function Normalize(s: string): string
  {
    RemoveSpaces(Lower(s))
  }

  lemma LowerAppend(a: string, b: string)
    ensures Lower(a + b) == Lower(a) + Lower(b)
  {
  }

  lemma {:induction false} RemoveSpacesAppend(a: string, b: string)
    ensures RemoveSpaces(a + b) == RemoveSpaces(a) + RemoveSpaces(b)
  {
    if a == [] {
      assert a + b == b;
    } else {
      assert (a + b)[1..] == a[1..] + b;
      RemoveSpacesAppend(a[1..], b);
    }
  }

  /** Normalizing distributes over concatenation. */
  lemma {:induction false} NormalizeAppend(a: string, b: string)
    ensures Normalize(a + b) == Normalize(a) + Normalize(b)
  {
    LowerAppend(a, b);
    RemoveSpacesAppend(Lower(a), Lower(b));
  }

  /** A normalized string is its own normal form, so normalizing twice is
      normalizing once. */
  lemma {:induction false} NormalizeIdempotent(s: string)
    ensures Normalize(Normalize(s)) == Normalize(s)
  {
    if s != [] {
      assert s == [s[0]] + s[1..];
      NormalizeAppend([s[0]], s[1..]);
      NormalizeIdempotent(s[1..]);
      var head := Normalize([s[0]]);
      NormalizeAppend(head, Normalize(s[1..]));
      assert Normalize(head) == head by {
        if LowerChar(s[0]) == ' ' {
          assert head == [];
        } else {
          assert head == [LowerChar(s[0])];
        }
      }
    }
  }

  /** A string without spaces or upper-case ASCII letters is already
      normalized. */
  lemma {:induction false} NormalizeFixed(s: string)
    requires forall i :: 0 <= i < |s| ==> s[i] != ' ' && !('A' <= s[i] <= 'Z')
    ensures Normalize(s) == s
  {
    if s != [] {
      assert s == [s[0]] + s[1..];
      NormalizeAppend([s[0]], s[1..]);
      assert forall i :: 0 <= i < |s[1..]| ==> s[1..][i] == s[i + 1];
      NormalizeFixed(s[1..]);
    }
  }

  /** Normalizing keeps every '+' of the string. */
  lemma {:induction false} NormalizeKeepsSeparators(s: string)
    ensures Count('+', Normalize(s)) == Count('+', s)
  {
    if s != [] {
      assert s == [s[0]] + s[1..];
      NormalizeAppend([s[0]], s[1..]);
      CountAppend('+', Normalize([s[0]]), Normalize(s[1..]));
      NormalizeKeepsSeparators(s[1..]);
    }
  }

  /** `s` split at every '+': the parts between separators, in order. */
  function Split(s: string): (parts: seq<string>)
    ensures |parts| == Count('+', s) + 1
    ensures forall i :: 0 <= i < |parts| ==> '+' !in parts[i]
  {
    if s == [] then [[]]
    else
      var rest := Split(s[1..]);
      if s[0] == '+' then [[]] + rest
      else [[s[0]] + rest[0]] + rest[1..]
  }

  /** The parts glued back together with '+' between neighbours. */
  function Join(parts: seq<string>): string
    requires |parts| >= 1
  {
    if |parts| == 1 then parts[0] else parts[0] + "+" + Join(parts[1..])
  }

  /** Splitting loses nothing: joining the parts gives back the string. */
  lemma {:induction false} JoinSplit(s: string)
    ensures Join(Split(s)) == s
  {
    if s != [] {
      var rest := Split(s[1..]);
      JoinSplit(s[1..]);
      if s[0] == '+' {
        assert Split(s)[1..] == rest;
        assert s == [] + "+" + s[1..];
      } else if |rest| == 1 {
        assert s == [s[0]] + rest[0];
      } else {
        var parts := Split(s);
        assert parts[1..] == rest[1..];
        assert Join(rest) == rest[0] + "+" + Join(rest[1..]);
        assert s == [s[0]] + s[1..];
      }
    }
  }

  /** Splitting a string with no '+' gives the string as the only part. */
  lemma {:induction false} SplitPlain(a: string)
    requires '+' !in a
    ensures Split(a) == [a]
  {
    if a != [] {
      assert '+' !in a[1..] by {
        forall i | 0 <= i < |a[1..]| ensures a[1..][i] != '+' {
          assert a[1..][i] == a[i + 1];
        }
      }
      SplitPlain(a[1..]);
      assert a == [a[0]] + a[1..];
    }
  }

  /** A '+' ends the first part when the text before it has none. */
  lemma {:induction false} SplitAtSeparator(a: string, b: string)
    requires '+' !in a
    ensures Split(a + "+" + b) == [a] + Split(b)
  {
    if a == [] {
      assert a + "+" + b == "+" + b;
      assert ("+" + b)[1..] == b;
    } else {
      assert '+' !in a[1..] by {
        forall i | 0 <= i < |a[1..]| ensures a[1..][i] != '+' {
          assert a[1..][i] == a[i + 1];
        }
      }
      assert (a + "+" + b)[1..] == a[1..] + "+" + b;
      SplitAtSeparator(a[1..], b);
      assert a == [a[0]] + a[1..];
    }
  }

  /** Joining parts that contain no '+' and splitting again gives the same
      parts back. */
  lemma {:induction false} SplitJoin(parts: seq<string>)
    requires |parts| >= 1
    requires forall i :: 0 <= i < |parts| ==> '+' !in parts[i]
    ensures Split(Join(parts)) == parts
  {
    if |parts| == 1 {
      SplitPlain(parts[0]);
    } else {
      SplitJoin(parts[1..]);
      SplitAtSeparator(parts[0], Join(parts[1..]));
      assert parts == [parts[0]] + parts[1..];
    }
  }
}
