/** The rollback button of the history view
    (components/prompts/rollback-button.tsx): it writes a history snapshot
    back onto the live prompt through `updatePrompt`. */
module RollbackButton {
  import opened Options
  import opened Rows
  import opened RecordStore
  import opened PromptActions
  import opened Ui

  const RollbackSuccessMessage := "Prompt rolled back successfully"
  const RollbackFallbackMessage := "Failed to rollback prompt"

  /** `details || ""`: a null snapshot `details` is passed as "". */
  function DetailsOrEmpty(details: Option<string>): string
  {
    match details
    case Some(s) => s
    case None => ""
  }

  /** The attributes `handleRollback` passes: the snapshot's own attribute
      fields, with `details` never null. */
  function RollbackAttributes(snapshot: Prompt): (a: Attributes)
    ensures a.details.Some?
  {
    PromptAttributes(snapshot).(details := Some(DetailsOrEmpty(snapshot.details)))
  }

  /** The attributes passed are the snapshot's, except that a null `details`
      becomes "". */
  lemma RollbackPassesSnapshot(snapshot: Prompt)
    ensures snapshot.details.Some? ==> RollbackAttributes(snapshot) == PromptAttributes(snapshot)
    ensures snapshot.details.None? ==>
      RollbackAttributes(snapshot) == PromptAttributes(snapshot.(details := Some("")))
  {
  }

  /** Whether the dialog stays open, and the toast shown, once the update has
      returned: a success closes the dialog, a failure leaves it as it was. */
  function AfterRollback(open: bool, result: ActionResult): (s: (bool, Notice))
    ensures result.Success? ==> s == (false, Toast(RollbackSuccessMessage))
    ensures result.Failure? && result.error != "" ==> s == (open, ErrorToast(result.error))
    ensures result.Failure? && result.error == "" ==> s == (open, ErrorToast(RollbackFallbackMessage))
  {
    match result
    case Success => (false, Toast(RollbackSuccessMessage))
    case Failure(e) => (open, ErrorToast(if e != "" then e else RollbackFallbackMessage))
  }

  /** A rollback that the store lets through leaves the live prompt
      `promptId` at the next version with the snapshot's content, whatever
      the snapshot's own id. */
  lemma RollbackRestoresSnapshot(d: Db, promptId: string, snapshot: Prompt)
    requires Valid(d) && promptId in d.prompts
    ensures var o := UpdateOutcome(d, promptId, RollbackAttributes(snapshot), snapshot.finalPrompt, Ok, Ok, Ok);
      && o.result == Success
      && AttributesOf(o.db.prompts[promptId]) == Some(RollbackAttributes(snapshot))
      && Lookup(o.db.prompts[promptId], FinalPrompt) == Some(Str(snapshot.finalPrompt))
      && Lookup(o.db.prompts[promptId], Version) == Some(NextVersion(d.prompts[promptId]))
      && o.db.prompts[promptId][Id] == Str(promptId)
  {
    UpdateArchivesThenBumps(d, promptId, RollbackAttributes(snapshot), snapshot.finalPrompt);
  }

  class RollbackButton {
    const promptId: string
    const snapshot: Prompt
    var open: bool
    var isLoading: bool

    constructor (promptId: string, snapshot: Prompt)
      ensures this.promptId == promptId && this.snapshot == snapshot && !open && !isLoading
    {
      this.promptId, this.snapshot := promptId, snapshot;
      open, isLoading := false, false;
    }

    /** `handleRollback`: updates the live prompt `promptId` with the
        snapshot's content and reports the result. */
    method HandleRollback(db: Store, fetch: Reply, archive: Reply, update: Reply) returns (notice: Notice)
      requires db.Valid()
      modifies this, db
      ensures db.Valid()
      ensures var o := UpdateOutcome(old(db.State()), promptId, RollbackAttributes(snapshot), snapshot.finalPrompt, fetch, archive, update);
        && db.State() == o.db
        && !isLoading
        && (open, notice) == AfterRollback(old(open), o.result)
    {
      isLoading := true;
      var result := UpdatePrompt(db, promptId, RollbackAttributes(snapshot), snapshot.finalPrompt, fetch, archive, update);
      open, notice := AfterRollback(open, result).0, AfterRollback(open, result).1;
      isLoading := false;
    }
  }
}
