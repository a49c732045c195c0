/** The edit sheet (components/prompts/edit-prompt-sheet.tsx): it seeds the
    form from a prompt, and submits the form through `updatePrompt`. */
module EditPromptSheet {
  import opened Options
  import opened Rows
  import opened RecordStore
  import opened PromptForm
  import opened PromptActions

  const UpdateFallbackMessage := "업데이트에 실패했습니다."

  /** `initialData`: every field of the form, seeded from the prompt;
      only `details` can be null. */
  function InitialData(p: Prompt): (init: PartialForm)
    ensures WellTyped(init) && init.Keys == AllFields
  {
    map[
      Field.CoreTheme := Some(p.coreTheme), Field.Hair := Some(p.hair), Field.Pose := Some(p.pose),
      Field.Outfit := Some(p.outfit), Field.Atmosphere := Some(p.atmosphere), Field.Gaze := Some(p.gaze),
      Field.Makeup := Some(p.makeup), Field.Background := Some(p.background),
      Field.AspectRatio := Some(p.aspectRatio), Field.Details := p.details, FullPrompt := Some(p.finalPrompt)]
  }

  /** The attributes `handleSubmit` passes, camelCase fields back to columns. */
  function SubmitAttributes(data: FormState): (a: Attributes)
    ensures Get(data, Field.CoreTheme) == Some(a.coreTheme) && Get(data, Field.Hair) == Some(a.hair)
    ensures Get(data, Field.Pose) == Some(a.pose) && Get(data, Field.Outfit) == Some(a.outfit)
    ensures Get(data, Field.Atmosphere) == Some(a.atmosphere) && Get(data, Field.Gaze) == Some(a.gaze)
    ensures Get(data, Field.Makeup) == Some(a.makeup) && Get(data, Field.Background) == Some(a.background)
    ensures Get(data, Field.AspectRatio) == Some(a.aspectRatio) && Get(data, Field.Details) == a.details
  {
    Attributes(data.coreTheme, data.hair, data.pose, data.outfit, data.atmosphere,
               data.gaze, data.makeup, data.background, data.aspectRatio, data.details)
  }

  /** The form state the sheet opens with holds the prompt's own fields. */
  lemma SeededForm(p: Prompt)
    ensures InitialState(InitialData(p)) ==
      FormState(p.coreTheme, p.hair, p.pose, p.outfit, p.atmosphere, p.gaze,
                p.makeup, p.background, p.aspectRatio, p.details, p.finalPrompt)
  {
    var f := InitialState(InitialData(p));
    assert Get(f, Field.CoreTheme) == Some(p.coreTheme);
    assert Get(f, Field.Hair) == Some(p.hair);
    assert Get(f, Field.Pose) == Some(p.pose);
    assert Get(f, Field.Outfit) == Some(p.outfit);
    assert Get(f, Field.Atmosphere) == Some(p.atmosphere);
    assert Get(f, Field.Gaze) == Some(p.gaze);
    assert Get(f, Field.Makeup) == Some(p.makeup);
    assert Get(f, Field.Background) == Some(p.background);
    assert Get(f, Field.AspectRatio) == Some(p.aspectRatio);
    assert Get(f, Field.Details) == p.details;
    assert Get(f, FullPrompt) == Some(p.finalPrompt);
  }

  /** Submitting the form as it was seeded from the row `r` passes the
      row's own attributes and final prompt. */
  lemma UnchangedSubmitRoundTrip(p: Prompt, r: Row)
    requires FromRow(r) == Some(p)
    ensures var data := InitialState(InitialData(p));
      && AttributesOf(r) == Some(SubmitAttributes(data))
      && Lookup(r, FinalPrompt) == Some(Str(data.fullPrompt))
  {
    SeededForm(p);
    FromRowColumns(r, p);
    assert SubmitAttributes(InitialState(InitialData(p))) == PromptAttributes(p);
  }

  /** The message `submitError` shows for a failed update. */
  function SubmitError(error: string): string
  {
    if error != "" then error else UpdateFallbackMessage
  }

  /** Whether the sheet stays open, and the error it shows, once an update
      has returned: a success closes the sheet, a failure keeps it as it was
      and shows the error. */
  function AfterSubmit(open: bool, result: ActionResult): (s: (bool, Option<string>))
    ensures result.Success? ==> s == (false, None)
    ensures result.Failure? ==> s == (open, Some(SubmitError(result.error)))
  {
    match result
    case Success => (false, None)
    case Failure(e) => (open, Some(SubmitError(e)))
  }

  class EditPromptSheet {
    const prompt: Prompt
    var open: bool
    var isLoading: bool
    var submitError: Option<string>

    constructor (p: Prompt)
      ensures prompt == p && !open && !isLoading && submitError == None
    {
      prompt := p;
      open, isLoading, submitError := false, false, None;
    }

    /** `handleSubmit(data)`: updates the prompt; on success the sheet
        closes, on failure it stays open and shows the action's error. */
    method HandleSubmit(db: Store, data: FormState, fetch: Reply, archive: Reply, update: Reply)
      requires db.Valid()
      modifies this, db
      ensures db.Valid()
      ensures var o := UpdateOutcome(old(db.State()), prompt.id, SubmitAttributes(data), data.fullPrompt, fetch, archive, update);
        && db.State() == o.db
        && !isLoading
        && (open, submitError) == AfterSubmit(old(open), o.result)
    {
      isLoading := true;
      submitError := None;
      var result := UpdatePrompt(db, prompt.id, SubmitAttributes(data), data.fullPrompt, fetch, archive, update);
      open, submitError := AfterSubmit(open, result).0, AfterSubmit(open, result).1;
      isLoading := false;
    }
  }
}
