/** The dashboard table (components/prompt-table.tsx): a hard delete of one
    prompt, with no trash entry, and the merge link for the selected rows. */
module PromptTable {
  import opened Options
  import opened Rows
  import opened RecordStore
  import opened Ui
  import opened PromptList

  const DeleteFailedPrefix := "Failed to delete prompt: "

  /** What `handleDelete` does to the store for `deleteId`; `None` for the
      error message means it went through or was not attempted. */
  function HardDeleteOutcome(d: Db, deleteId: Option<string>, reply: Reply): (s: Step)
    ensures deleteId.None? || deleteId == Some("") ==> s == Step(d, None)
    ensures deleteId.Some? && deleteId.value != "" && reply.Ok? ==>
      s == Step(d.(prompts := d.prompts - {deleteId.value}), None)
    ensures deleteId.Some? && deleteId.value != "" && reply.Err? ==>
      s == Step(d, Some(DeleteFailedPrefix + reply.message))
  {
    match deleteId
    case None => Step(d, None)
    case Some(id) =>
      if id == "" then Step(d, None)
      else
        var deleted := DeleteStep(d, Prompts, {id}, reply);
        match deleted.error
        case Some(message) => Step(d, Some(DeleteFailedPrefix + message))
        case None => deleted
  }

  /** The delete removes that one prompt and writes nothing else: no trash
      row, no favorite, no history. */
  lemma HardDeleteTouchesOnlyPrompts(d: Db, id: string, reply: Reply)
    requires Valid(d) && id != ""
    ensures var s := HardDeleteOutcome(d, Some(id), reply);
      && Valid(s.db)
      && s.db.trash == d.trash && s.db.favorites == d.favorites && s.db.histories == d.histories
      && (forall k :: k in d.prompts && k != id ==> k in s.db.prompts && s.db.prompts[k] == d.prompts[k])
      && (s.error.Some? ==> s.db == d)
      && (s.error.None? ==> id !in s.db.prompts)
  {
  }

  class PromptTable {
    var rowSelection: seq<string>
    var deleteId: Option<string>
    var isDeleting: bool

    constructor ()
      ensures rowSelection == [] && deleteId == None && !isDeleting
    {
      rowSelection, deleteId, isDeleting := [], None, false;
    }

    /** `handleDelete`: on success the pending id and the selection are
        cleared; on an error both stay and an alert is raised. */
    method HandleDelete(db: Store, reply: Reply) returns (notice: Notice)
      requires db.Valid()
      modifies this, db
      ensures db.Valid()
      ensures var s := HardDeleteOutcome(old(db.State()), old(deleteId), reply);
        && db.State() == s.db
        && notice == (if s.error.Some? then Alert(s.error.value) else Quiet)
      ensures old(deleteId).None? || old(deleteId) == Some("") ==>
        rowSelection == old(rowSelection) && deleteId == old(deleteId) && isDeleting == old(isDeleting)
      ensures old(deleteId).Some? && old(deleteId) != Some("") ==>
        && !isDeleting
        && (if reply.Ok? then rowSelection == [] && deleteId == None
            else rowSelection == old(rowSelection) && deleteId == old(deleteId))
    {
      if deleteId.None? || deleteId == Some("") {
        return Quiet;
      }
      isDeleting := true;
      var error := db.Delete(Prompts, {deleteId.value}, reply);
      if error.Some? {
        notice := Alert(DeleteFailedPrefix + error.value);
      } else {
        deleteId := None;
        rowSelection := [];
        notice := Quiet;
      }
      isDeleting := false;
    }

    /** `handleMerge`: the route pushed, if any. */
    method HandleMerge() returns (route: Option<string>)
      ensures route == MergeTarget(rowSelection)
    {
      if |rowSelection| == 0 {
        return None;
      }
      route := Some(MergePath + Text.Join(rowSelection, MergePage.IdSeparator));
    }
  }
}
