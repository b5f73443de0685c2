/**
  The distraction step of onboarding: a row of chips, each toggling its
  distraction in and out of an ordered selection.
*/
module StepDistractions {
  import opened Types

  const StudentDistractions: seq<string> :=
    ["Social Media", "Video Games", "Procrastination", "Friends", "Noisy Environment", "Phone Notifications"]
  const DeveloperDistractions: seq<string> :=
    ["Social Media", "Context Switching", "Unplanned Meetings", "Slack/Email", "Complex Bugs", "Phone Notifications"]

  function OptionsFor(profession: Profession): (options: seq<string>)
  {
    if profession == Student then StudentDistractions else DeveloperDistractions
  }

  /** `prev.filter(x => x !== d)`. */
  function Remove(selection: seq<string>, d: string): (rest: seq<string>)
  {
    if selection == [] then []
    else if selection[0] == d then Remove(selection[1..], d)
    else [selection[0]] + Remove(selection[1..], d)
  }

  function Toggle(selection: seq<string>, d: string): (toggled: seq<string>)
  {
    if d in selection then Remove(selection, d) else selection + [d]
  }

  predicate Distinct(selection: seq<string>)
  {
    forall i, j | 0 <= i < j < |selection| :: selection[i] != selection[j]
  }

  lemma {:induction false} RemoveMembers(selection: seq<string>, d: string)
    ensures forall x :: x in Remove(selection, d) <==> x in selection && x != d
  {
    if selection != [] {
      RemoveMembers(selection[1..], d);
      assert selection == [selection[0]] + selection[1..];
    }
  }

  lemma {:induction false} RemoveAbsent(selection: seq<string>, d: string)
    requires d !in selection
    ensures Remove(selection, d) == selection
  {
    if selection != [] {
      assert d !in selection[1..] by {
        forall k | 0 <= k < |selection[1..]| ensures selection[1..][k] != d {
          assert selection[1..][k] == selection[k + 1];
        }
      }
      RemoveAbsent(selection[1..], d);
    }
  }

  lemma {:induction false} RemoveAppended(selection: seq<string>, d: string)
    ensures Remove(selection + [d], d) == Remove(selection, d)
  {
    if selection == [] {
      assert Remove([d], d) == Remove([d][1..], d);
    } else {
      assert (selection + [d])[1..] == selection[1..] + [d];
      RemoveAppended(selection[1..], d);
    }
  }

  lemma {:induction false} RemoveKeepsDistinct(selection: seq<string>, d: string)
    requires Distinct(selection)
    ensures Distinct(Remove(selection, d))
  {
    if selection != [] {
      var tail := selection[1..];
      assert Distinct(tail) by {
        forall i, j | 0 <= i < j < |tail| ensures tail[i] != tail[j] {
          assert tail[i] == selection[i + 1] && tail[j] == selection[j + 1];
        }
      }
      RemoveKeepsDistinct(tail, d);
      RemoveMembers(tail, d);
      if selection[0] != d {
        var r := Remove(tail, d);
        assert selection[0] !in tail by {
          forall k | 0 <= k < |tail| ensures tail[k] != selection[0] {
            assert tail[k] == selection[k + 1];
          }
        }
        var whole := [selection[0]] + r;
        forall i, j | 0 <= i < j < |whole| ensures whole[i] != whole[j] {
          if i == 0 {
            assert whole[j] == r[j - 1] && whole[j] in r;
          } else {
            assert whole[i] == r[i - 1] && whole[j] == r[j - 1];
          }
        }
      }
    }
  }

  /** After a toggle, `d` is selected exactly when it was not; nothing else changes membership. */
  lemma ToggleMembership(selection: seq<string>, d: string)
    ensures d in Toggle(selection, d) <==> d !in selection
    ensures forall x | x != d :: x in Toggle(selection, d) <==> x in selection
  {
    RemoveMembers(selection, d);
  }

  /** An unselected item is appended at the end. */
  lemma ToggleAppends(selection: seq<string>, d: string)
    requires d !in selection
    ensures Toggle(selection, d) == selection + [d]
  {
  }

  /** Toggling an unselected item twice gives back the same list. */
  lemma ToggleTwice(selection: seq<string>, d: string)
    requires d !in selection
    ensures Toggle(Toggle(selection, d), d) == selection
  {
    assert d in selection + [d];
    RemoveAppended(selection, d);
    RemoveAbsent(selection, d);
  }

  /** A selection without duplicates stays without duplicates. */
  lemma ToggleKeepsDistinct(selection: seq<string>, d: string)
    requires Distinct(selection)
    ensures Distinct(Toggle(selection, d))
  {
    if d in selection {
      RemoveKeepsDistinct(selection, d);
    } else {
      var r := selection + [d];
      forall i, j | 0 <= i < j < |r| ensures r[i] != r[j] {
        if j == |selection| {
          assert r[i] == selection[i];
        }
      }
    }
  }

  /** The option lists of the two professions. */
  lemma OptionsByProfession(profession: Profession)
    ensures profession == Student ==> OptionsFor(profession) == StudentDistractions
    ensures profession == Developer ==> OptionsFor(profession) == DeveloperDistractions
    ensures |OptionsFor(profession)| == 6 && Distinct(OptionsFor(profession))
  {
  }

  class DistractionPicker {
    const profession: Profession
    var selected: seq<string>

    constructor(profession: Profession)
      ensures this.profession == profession && selected == []
    {
      this.profession := profession;
      selected := [];
    }

    function Options(): seq<string>
    {
      OptionsFor(profession)
    }

    method ToggleSelection(d: string)
      modifies this
      ensures selected == Toggle(old(selected), d)
    {
      if d in selected {
        selected := Remove(selected, d);
      } else {
        selected := selected + [d];
      }
    }

    /** `handleSubmit`: the selection goes forward only when it is not empty. */
    method Submit() returns (forwarded: Option<seq<string>>)
      ensures forwarded.Some? <==> |selected| > 0
      ensures forwarded.Some? ==> forwarded.value == selected
    {
      forwarded := if |selected| > 0 then Some(selected) else None;
    }
  }
}
