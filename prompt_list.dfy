/** The dashboard card list (components/prompt-list.tsx): a set of selected
    prompt ids, and the merge link built from it. The set is a sequence
    without repeats, in the order the ids were added, as a JavaScript `Set`
    iterates. */
module PromptList {
  import opened Options
  import opened Text
  import opened MergePage
  import opened Collections

  const MergePath := "/merge?ids="

  /** `toggleSelection(id, selected)` on the selection `s`. */
  function Toggle(s: seq<string>, id: string, selected: bool): (r: seq<string>)
    ensures forall x :: x in r <==> if x == id then selected else x in s
    ensures Distinct(s) ==> Distinct(r)
  {
    if selected then (if id in s then s else s + [id]) else Without(s, id)
  }

  /** Adding a new member puts it last and keeps the rest as they were. */
  lemma ToggleOnAppends(s: seq<string>, id: string)
    requires id !in s
    ensures Toggle(s, id, true) == s + [id]
  {
  }

  /** Toggling the same id the same way twice is toggling it once. */
  lemma ToggleTwice(s: seq<string>, id: string, selected: bool)
    ensures Toggle(Toggle(s, id, selected), id, selected) == Toggle(s, id, selected)
  {
    if !selected {
      WithoutAbsent(Without(s, id), id);
    }
  }

  /** The route `handleMerge` pushes: none for an empty selection, else the
      ids joined by ",". */
  function MergeTarget(ids: seq<string>): (r: Option<string>)
    ensures r.None? <==> ids == []
    ensures r.Some? ==> |MergePath| <= |r.value| && r.value[..|MergePath|] == MergePath
  {
    if |ids| == 0 then None else Some(MergePath + Join(ids, IdSeparator))
  }

  /** The merge page splits the joined parameter back into the selected ids,
      when none of them holds a ",". */
  lemma MergeIdsRoundTrip(ids: seq<string>)
    requires |ids| > 0
    requires forall i :: 0 <= i < |ids| ==> !Contains(ids[i], IdSeparator)
    ensures MergeTarget(ids).Some?
    ensures ParseIds(Some(MergeTarget(ids).value[|MergePath|..])) == ids
  {
    assert MergeTarget(ids).value[|MergePath|..] == Join(ids, IdSeparator);
    CommaUnbordered();
    SplitJoin(ids, IdSeparator);
  }

  class PromptList {
    var selectedIds: seq<string>

    predicate Valid()
      reads this
    {
      Distinct(selectedIds)
    }

    constructor ()
      ensures Valid() && selectedIds == []
    {
      selectedIds := [];
    }

    /** `toggleSelection(id, selected)`. */
    method ToggleSelection(id: string, selected: bool)
      requires Valid()
      modifies this
      ensures Valid()
      ensures selectedIds == Toggle(old(selectedIds), id, selected)
    {
      if selected {
        if id !in selectedIds {
          selectedIds := selectedIds + [id];
        }
      } else {
        selectedIds := Without(selectedIds, id);
      }
    }

    /** `handleMerge`: the route pushed, if any. */
    method HandleMerge() returns (route: Option<string>)
      ensures route == MergeTarget(selectedIds)
    {
      if |selectedIds| == 0 {
        return None;
      }
      route := Some(MergePath + Join(selectedIds, IdSeparator));
    }
  }
}
