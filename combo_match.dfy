/** Whether a combo is held: every one of its key groups has at least one
    key among the keys currently pressed, and the combo has at least one
    group. */
module ComboMatch {

  /** At least one key of `group` is pressed. */
  predicate GroupHeld(group: set<int>, pressed: set<int>)
  {
    exists code :: code in group && code in pressed
  }

  /** Every group in `groups`, in order, has a pressed key; the first group
      with none decides the answer. */
  function AllGroupsHeld(groups: seq<set<int>>, pressed: set<int>): (r: bool)
    ensures r <==> forall i :: 0 <= i < |groups| ==> GroupHeld(groups[i], pressed)
  {
    if groups == [] then true
    else if !GroupHeld(groups[0], pressed) then false
    else AllGroupsHeld(groups[1..], pressed)
  }

  /** The combo fires when it has a group and each group shares a key with
      the pressed set; an empty combo never fires. */
  function ComboMatches(groups: seq<set<int>>, pressed: set<int>): (r: bool)
    ensures groups == [] ==> !r
    ensures r <==> |groups| > 0 && forall i :: 0 <= i < |groups| ==> exists k :: k in groups[i] && k in pressed
  {
    if groups == [] then false else AllGroupsHeld(groups, pressed)
  }

  /** Pressing more keys never turns a match into a non-match. */
  lemma MatchMonotone(groups: seq<set<int>>, pressed: set<int>, more: set<int>)
    requires pressed <= more
    requires ComboMatches(groups, pressed)
    ensures ComboMatches(groups, more)
  {
  }

  /** A key that belongs to no group of the combo makes no difference,
      whether it is added to or taken from the pressed set. */
  lemma UnrelatedKey(groups: seq<set<int>>, pressed: set<int>, code: int)
    requires forall i :: 0 <= i < |groups| ==> code !in groups[i]
    ensures ComboMatches(groups, pressed + {code}) == ComboMatches(groups, pressed)
    ensures ComboMatches(groups, pressed - {code}) == ComboMatches(groups, pressed)
  {
  }
}
