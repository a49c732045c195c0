/** The duplicate button (components/prompts/duplicate-prompt-button.tsx):
    it inserts a copy of a prompt under a new id for the signed-in user. */
module DuplicatePromptButton {
  import opened Options
  import opened Rows
  import opened RecordStore
  import opened Ui

  const CopySuffix := " (Copy)"
  const AuthRequiredMessage := "사용자 인증이 필요합니다."
  const DuplicateErrorPrefix := "복제 중 오류가 발생했습니다: "
  /** Where the page goes once the copy is stored. */
  const HomePath := "/"

  /** The columns the copy does not take over from the original as they are. */
  const DuplicateOverrides: set<Column> := {Id, CreatedAt, UserId, CoreTheme, Details}

  /** `{ ...promptData, user_id, core_theme: core_theme + " (Copy)", details: details ?? "" }`,
      where `promptData` is the prompt without `id` and `created_at`. */
  function DuplicateRow(p: Row, user: string): (r: Row)
    ensures Id !in r && CreatedAt !in r
    ensures Lookup(r, UserId) == Some(Str(user))
    ensures Lookup(r, CoreTheme) == Some(Str(JsString(Lookup(p, CoreTheme)) + CopySuffix))
    ensures Lookup(r, Details) == Some(Coalesce(Lookup(p, Details), Str("")))
    ensures forall k :: k !in DuplicateOverrides ==> Lookup(r, k) == Lookup(p, k)
  {
    var promptData := p - {Id, CreatedAt};
    promptData[UserId := Str(user)]
              [CoreTheme := Str(JsString(Lookup(promptData, CoreTheme)) + CopySuffix)]
              [Details := Coalesce(Lookup(promptData, Details), Str(""))]
  }

  /** A duplicate read back as a prompt is the original, renamed, under its
      new id and owner, with no creation time and a non-null `details`. */
  lemma DuplicateOfPrompt(r: Row, p: Prompt, user: string, newId: string)
    requires FromRow(r) == Some(p)
    ensures FromRow(DuplicateRow(r, user)[Id := Str(newId)]) ==
      Some(p.(id := newId, coreTheme := p.coreTheme + CopySuffix, createdAt := None,
              details := Some(if p.details.Some? then p.details.value else ""), userId := Some(user)))
  {
    var c := DuplicateRow(r, user)[Id := Str(newId)];
    assert Lookup(c, Version) == Lookup(r, Version);
    assert Lookup(c, FinalPrompt) == Lookup(r, FinalPrompt);
    assert Lookup(c, Hair) == Lookup(r, Hair);
    assert Lookup(c, Pose) == Lookup(r, Pose);
    assert Lookup(c, Outfit) == Lookup(r, Outfit);
    assert Lookup(c, Atmosphere) == Lookup(r, Atmosphere);
    assert Lookup(c, Gaze) == Lookup(r, Gaze);
    assert Lookup(c, Makeup) == Lookup(r, Makeup);
    assert Lookup(c, Background) == Lookup(r, Background);
    assert Lookup(c, AspectRatio) == Lookup(r, AspectRatio);
  }

  /** What `handleDuplicateConfirm` does to the store, and the alert it
      raises (`None` when the copy was stored). */
  function DuplicateOutcome(d: Db, prompt: Row, gen: nat -> string, insert: Reply): (s: Step)
    ensures Valid(d) ==> Valid(s.db)
    ensures d.user.None? ==> s == Step(d, Some(DuplicateErrorPrefix + AuthRequiredMessage))
    ensures s.error.Some? ==> s.db == d
    ensures s.db.histories == d.histories && s.db.favorites == d.favorites && s.db.trash == d.trash
    ensures s.db.settings == d.settings && s.db.user == d.user
    ensures forall k :: k in d.prompts ==> k in s.db.prompts && s.db.prompts[k] == d.prompts[k]
  {
    match d.user
    case None => Step(d, Some(DuplicateErrorPrefix + AuthRequiredMessage))
    case Some(user) =>
      var row := DuplicateRow(prompt, user);
      InsertAllKeeps(d.prompts, [row], gen, 0);
      var inserted := InsertStep(d, Prompts, [row], gen, insert);
      match inserted.error
      case Some(message) => Step(d, Some(DuplicateErrorPrefix + message))
      case None => inserted
  }

  /** For a signed-in user, an accepted insert adds exactly the copy, under
      the id the store generates. */
  lemma DuplicateAddsCopy(d: Db, prompt: Row, gen: nat -> string)
    requires d.user.Some? && gen(0) !in d.prompts
    ensures var s := DuplicateOutcome(d, prompt, gen, Ok);
      && s.error.None?
      && s.db.prompts == d.prompts[gen(0) := DuplicateRow(prompt, d.user.value)[Id := Str(gen(0))]]
  {
    InsertOne(d.prompts, DuplicateRow(prompt, d.user.value), gen);
  }

  class DuplicatePromptButton {
    const prompt: Row
    var dialogOpen: bool
    var isDuplicating: bool

    constructor (prompt: Row)
      ensures this.prompt == prompt && !dialogOpen && !isDuplicating
    {
      this.prompt := prompt;
      dialogOpen, isDuplicating := false, false;
    }

    /** `handleDuplicateClick`. */
    method HandleDuplicateClick()
      modifies this
      ensures dialogOpen && isDuplicating == old(isDuplicating)
    {
      dialogOpen := true;
    }

    /** `handleDuplicateConfirm`: inserts the copy; the dialog closes and
        the page goes home only when it was stored. */
    method HandleDuplicateConfirm(db: Store, gen: nat -> string, insert: Reply) returns (notice: Notice, route: Option<string>)
      requires db.Valid()
      modifies this, db
      ensures db.Valid()
      ensures var s := DuplicateOutcome(old(db.State()), prompt, gen, insert);
        && db.State() == s.db
        && !isDuplicating
        && dialogOpen == (old(dialogOpen) && s.error.Some?)
        && notice == (if s.error.Some? then Alert(s.error.value) else Quiet)
        && route == (if s.error.Some? then None else Some(HomePath))
    {
      route := None;
      isDuplicating := true;
      var state := db.State();
      if state.user.None? {
        notice := Alert(DuplicateErrorPrefix + AuthRequiredMessage);
        isDuplicating := false;
        return;
      }
      var error := db.Insert(Prompts, [DuplicateRow(prompt, state.user.value)], gen, insert);
      if error.Some? {
        notice := Alert(DuplicateErrorPrefix + error.value);
      } else {
        dialogOpen := false;
        notice, route := Quiet, Some(HomePath);
      }
      isDuplicating := false;
    }
  }
}
