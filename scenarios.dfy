/**
  The scenario list page: the selection of scenarios to compare (at most
  three, no repeats), and the guards in front of the compare, rename,
  duplicate and view-results actions.
*/
module ScenarioList {
  import opened Values
  import opened Grouping
  import opened Lists
  import opened Schema

  /** The most scenarios that can be compared at once. */
  const MaxCompared := 3

  /** `prev.filter(x => x !== id)`: the selection without `id`, the others in order. */
  function Without(prev: seq<string>, id: string): (r: seq<string>)
    ensures |r| <= |prev|
  {
    Filter(prev, Other(id))
  }

  /** The test `x => x !== id` of that filter. */
  function Other(id: string): string -> bool {
    x => x != id
  }

  /** Removing `id` drops every copy of it and keeps the other ids; it keeps a selection free of repeats and shortens it by one when `id` was there. */
  lemma {:induction false} WithoutSpec(prev: seq<string>, id: string)
    ensures id !in Without(prev, id)
    ensures forall x :: x != id ==> (x in Without(prev, id) <==> x in prev)
    ensures Distinct(prev) ==> Distinct(Without(prev, id))
    ensures id !in prev ==> Without(prev, id) == prev
    ensures Distinct(prev) && id in prev ==> |Without(prev, id)| == |prev| - 1
  {
    FilterMembers(prev, Other(id));
    if id !in prev {
      WithoutAbsent(prev, id);
    }
    if Distinct(prev) {
      WithoutDistinct(prev, id);
      if id in prev {
        var k :| 0 <= k < |prev| && prev[k] == id;
        WithoutAt(prev, id, k);
      }
    }
  }

  lemma {:induction false} WithoutDistinct(prev: seq<string>, id: string)
    requires Distinct(prev)
    ensures Distinct(Without(prev, id))
  {
    if prev != [] {
      var init := prev[..|prev| - 1];
      var last := prev[|prev| - 1];
      assert prev == init + [last];
      DistinctSnoc(init, last);
      WithoutDistinct(init, id);
      WithoutSnoc(init, last, id);
      if last != id {
        var r := Without(init, id) + [last];
        assert last !in Without(init, id) by {
          FilterMembers(init, Other(id));
        }
        forall i, j | 0 <= i < j < |r| ensures r[i] != r[j] {
          if j == |r| - 1 {
            assert r[i] in Without(init, id);
          }
        }
      }
    }
  }

  lemma DistinctSnoc(s: seq<string>, x: string)
    requires Distinct(s + [x])
    ensures Distinct(s) && x !in s
  {
    assert forall i :: 0 <= i < |s| ==> s[i] == (s + [x])[i];
    forall i | 0 <= i < |s| ensures s[i] != x {
      assert (s + [x])[i] != (s + [x])[|s|];
    }
  }

  /** Removing an id that is not there changes nothing. */
  lemma {:induction false} WithoutAbsent(prev: seq<string>, id: string)
    requires id !in prev
    ensures Without(prev, id) == prev
  {
    if prev != [] {
      var init := prev[..|prev| - 1];
      var last := prev[|prev| - 1];
      assert prev == init + [last];
      WithoutAbsent(init, id);
      WithoutSnoc(init, last, id);
    }
  }

  /** Removing splits over concatenation: the remaining ids keep their order, repeated ones included. */
  lemma WithoutAppend(a: seq<string>, b: seq<string>, id: string)
    ensures Without(a + b, id) == Without(a, id) + Without(b, id)
  {
    FilterAppend(a, b, Other(id));
  }

  lemma WithoutSnoc(prev: seq<string>, x: string, id: string)
    ensures Without(prev + [x], id) == Without(prev, id) + if x != id then [x] else []
  {
    FilterSnoc(prev, x, Other(id));
  }

  /** In a selection without repeats, removing `id` cuts it out at its place and keeps the others in order. */
  lemma WithoutAt(prev: seq<string>, id: string, k: nat)
    requires Distinct(prev) && k < |prev| && prev[k] == id
    ensures Without(prev, id) == prev[..k] + prev[k + 1..]
  {
    assert prev == prev[..k] + [id] + prev[k + 1..];
    assert id !in prev[..k] && id !in prev[k + 1..] by {
      forall i | 0 <= i < |prev| && i != k ensures prev[i] != id { }
    }
    WithoutAppend(prev[..k] + [id], prev[k + 1..], id);
    WithoutAppend(prev[..k], [id], id);
    WithoutAbsent(prev[..k], id);
    WithoutAbsent(prev[k + 1..], id);
    WithoutSnoc([], id, id);
    assert [] + [id] == [id];
  }

  /** The transition `toggleComparisonSelection(id)` computes from the previous selection. */
  function Toggle(prev: seq<string>, id: string): (next: seq<string>)
    ensures id in prev ==> next == Without(prev, id)
    ensures id !in prev && |prev| < MaxCompared ==> next == prev + [id]
    ensures id !in prev && |prev| >= MaxCompared ==> next == prev
  {
    if id in prev then Without(prev, id)
    else if |prev| < MaxCompared then prev + [id]
    else prev
  }

  /** A toggle that is refused with an error: adding a fourth scenario. */
  predicate Refused(prev: seq<string>, id: string) {
    id !in prev && |prev| >= MaxCompared
  }

  /** The selection invariant: at most three ids, none twice. */
  predicate ValidSelection(s: seq<string>) {
    |s| <= MaxCompared && Distinct(s)
  }

  /** Toggling keeps the selection invariant, and afterwards `id` is selected exactly when it was not before and there was room. */
  lemma ToggleKeepsValid(prev: seq<string>, id: string)
    requires ValidSelection(prev)
    ensures ValidSelection(Toggle(prev, id))
    ensures id in Toggle(prev, id) <==> id !in prev && |prev| < MaxCompared
  {
    WithoutSpec(prev, id);
    if id !in prev && |prev| < MaxCompared {
      var next := prev + [id];
      forall i, j | 0 <= i < j < |next| ensures next[i] != next[j] {
        if j == |prev| {
          assert next[i] == prev[i];
        }
      }
    }
  }

  /** Toggling the same unselected id twice, when there is room, restores the selection. */
  lemma ToggleTwice(prev: seq<string>, id: string)
    requires ValidSelection(prev) && id !in prev && |prev| < MaxCompared
    ensures Toggle(Toggle(prev, id), id) == prev
  {
    WithoutSnoc(prev, id, id);
    WithoutAbsent(prev, id);
  }

  datatype ListNotice = TooManySelected | TooFewSelected

  class Selection {
    var selected: seq<string>
    var notices: seq<ListNotice>

    ghost predicate Valid()
      reads this
    {
      ValidSelection(selected)
    }

    constructor ()
      ensures Valid() && selected == [] && notices == []
    {
      selected := [];
      notices := [];
    }

    /** `toggleComparisonSelection(id)`, with the setter applied at once. */
    method ToggleComparisonSelection(id: string)
      requires Valid()
      modifies this
      ensures Valid()
      ensures selected == Toggle(old(selected), id)
      ensures notices == old(notices) + if Refused(old(selected), id) then [TooManySelected] else []
    {
      ToggleKeepsValid(selected, id);
      if Refused(selected, id) {
        notices := notices + [TooManySelected];
      }
      selected := Toggle(selected, id);
    }

    /** `handleCompare`: the ids to compare, in selection order, or `None` (and an error) with fewer than two. */
    method HandleCompare() returns (target: Option<seq<string>>)
      modifies this
      ensures selected == old(selected)
      ensures target == CompareTarget(old(selected))
      ensures notices == old(notices) + if target.None? then [TooFewSelected] else []
    {
      target := CompareTarget(selected);
      if target.None? {
        notices := notices + [TooFewSelected];
      }
    }
  }

  function CompareTarget(selected: seq<string>): (target: Option<seq<string>>)
    ensures target.None? <==> |selected| < 2
    ensures target.Some? ==> target.value == selected
  {
    if |selected| < 2 then None else Some(selected)
  }

  // ===========================================================================
  // Guards of the row actions

  /** What `prompt` returned: cancelled (`null`), the offered default accepted, or other text. */
  datatype PromptAnswer = Cancelled | Accepted | Typed(text: string)

  function Answer(a: PromptAnswer, offered: string): Option<string> {
    match a
    case Cancelled => None
    case Accepted => Some(offered)
    case Typed(t) => Some(t)
  }

  /** `handleRename`: the name to send, if any; an empty, cancelled or unchanged name sends nothing. */
  function RenameRequest(currentName: string, a: PromptAnswer): (r: Option<string>)
    ensures r.Some? <==> Answer(a, currentName).Some? && Answer(a, currentName).value != "" && Answer(a, currentName).value != currentName
    ensures r.Some? ==> r == Answer(a, currentName)
    ensures a.Accepted? ==> r.None?
  {
    match Answer(a, currentName)
    case None => None
    case Some(n) => if n == "" || n == currentName then None else Some(n)
  }

  /** `handleDuplicate`: the new name to send, offering `Copy of <name>`; an empty or cancelled name sends nothing. */
  function DuplicateRequest(originalName: string, a: PromptAnswer): (r: Option<string>)
    ensures a.Accepted? ==> r == Some("Copy of " + originalName)
    ensures a.Cancelled? ==> r.None?
    ensures a.Typed? ==> (r.Some? <==> a.text != "") && (r.Some? ==> r.value == a.text)
  {
    match Answer(a, "Copy of " + originalName)
    case None => None
    case Some(n) => if n == "" then None else Some(n)
  }

  /** `handleViewResults`: the results to show, or `None` (and an error) for a scenario never optimized. */
  function ViewResults(s: Scenario): (r: Option<OptResult>)
    ensures r.None? <==> s.results.None?
    ensures r.Some? ==> r == s.results
  {
    s.results
  }
}
