/** The `updatePrompt` server action (app/actions/prompt.ts): archive the
    current row into `prompt_histories`, then overwrite it with new
    attributes and the next version number. */
module PromptActions {
  import opened Options
  import opened Rows
  import opened RecordStore

  const NotFoundMessage := "Prompt not found"
  const UpdateFailedMessage := "Failed to update prompt"

  /** The columns of the current row a history snapshot copies, besides its id. */
  const HistoryColumns: set<Column> := ContentKeys + {Version}

  /** The history row archived for `current`: its id as `prompt_id`, its
      version, and its eleven content columns. */
  function HistoryRow(current: Row): (h: Row)
    ensures Lookup(h, PromptId) == Lookup(current, Id)
    ensures Lookup(h, Version) == Lookup(current, Version)
    ensures forall k :: k in ContentKeys ==> Lookup(h, k) == Lookup(current, k)
    ensures h.Keys <= ContentKeys + {PromptId, Version}
  {
    var copied := map k | k in HistoryColumns && k in current :: current[k];
    if Id in current then copied[PromptId := current[Id]] else copied
  }

  /** `(currentPrompt.version || 0) + 1`, with JavaScript's `+`: a falsy
      version counts as 0, a number is incremented, and a non-empty string
      gets "1" appended. */
  function NextVersion(current: Row): (v: Value)
    ensures !Truthy(Lookup(current, Version)) ==> v == Num(1)
    ensures Version in current && current[Version].Num? ==> v == Num(current[Version].n + 1)
    ensures Lookup(current, Version) == Some(Bool(true)) ==> v == Num(2)
    ensures Version in current && current[Version].Str? && current[Version].s != "" ==>
      v == Str(current[Version].s + "1")
  {
    match Lookup(current, Version)
    case Some(Num(n)) => Num(n + 1)
    case Some(Bool(true)) => Num(2)
    case Some(Str(s)) => if s == "" then Num(1) else Str(s + "1")
    case _ => Num(1)
  }

  /** `{ ...attributes, final_prompt: finalPrompt, version: newVersion }`. */
  function UpdatePatch(a: Attributes, finalPrompt: string, version: Value): (p: Row)
    ensures Id !in p
    ensures FinalPrompt in p && p[FinalPrompt] == Str(finalPrompt)
    ensures Version in p && p[Version] == version
    ensures p.Keys == AttributeKeys + {FinalPrompt, Version}
    ensures forall k :: k in AttributeKeys ==> p[k] == AttributesRow(a)[k]
  {
    AttributesRow(a)[FinalPrompt := Str(finalPrompt)][Version := version]
  }

  /** The row `current` becomes: `current` merged with the patch. It keeps
      its id and its columns, and gains the attribute columns, the final
      prompt and the version. */
  function UpdatedRow(current: Row, a: Attributes, finalPrompt: string): (r: Row)
    ensures Lookup(r, Id) == Lookup(current, Id)
    ensures r.Keys == current.Keys + AttributeKeys + {FinalPrompt, Version}
    ensures forall k :: k in AttributeKeys ==> r[k] == AttributesRow(a)[k]
  {
    var patch := UpdatePatch(a, finalPrompt, NextVersion(current));
    assert Id !in patch;
    current + patch
  }

  /** The updated row holds the given attributes and final prompt, the next
      version, and every other column as it was. */
  lemma UpdatedRowColumns(current: Row, a: Attributes, finalPrompt: string)
    ensures var r := UpdatedRow(current, a, finalPrompt);
      && AttributesOf(r) == Some(a)
      && Lookup(r, FinalPrompt) == Some(Str(finalPrompt))
      && Lookup(r, Version) == Some(NextVersion(current))
      && (forall k :: k !in HistoryColumns ==> Lookup(r, k) == Lookup(current, k))
  {
    var patch := UpdatePatch(a, finalPrompt, NextVersion(current));
    var r := current + patch;
    forall k | k in AttributeKeys ensures Lookup(r, k) == Lookup(AttributesRow(a), k) {
      assert k != FinalPrompt && k != Version && k in AttributesRow(a);
      assert patch[k] == AttributesRow(a)[k];
    }
    AttributesRoundTrip(a);
    AttributesOfColumns(r, AttributesRow(a));
  }

  /** Writing a row's own attributes and final prompt back changes none of
      its content; only the version moves on. */
  lemma UpdateWithOwnContent(current: Row, a: Attributes, finalPrompt: string)
    requires AttributesOf(current) == Some(a)
    requires Lookup(current, FinalPrompt) == Some(Str(finalPrompt))
    ensures var r := UpdatedRow(current, a, finalPrompt);
      && AttributesOf(r) == AttributesOf(current)
      && Lookup(r, FinalPrompt) == Lookup(current, FinalPrompt)
      && Lookup(r, Version) == Some(NextVersion(current))
  {
    UpdatedRowColumns(current, a, finalPrompt);
  }

  /** What `updatePrompt(id, a, finalPrompt)` does to the store and returns,
      given how the store answers the fetch, the archive insert and the
      update. */
  function UpdateOutcome(d: Db, id: string, a: Attributes, finalPrompt: string,
                         fetch: Reply, archive: Reply, update: Reply): (o: Outcome)
    ensures Valid(d) ==> Valid(o.db)
    ensures fetch.Err? || id !in d.prompts ==> o == Outcome(d, Failure(NotFoundMessage))
    ensures fetch.Ok? && id in d.prompts ==>
      && o.db.histories == d.histories + (if archive.Ok? then [HistoryRow(d.prompts[id])] else [])
      && o.db.prompts == (if update.Ok? then d.prompts[id := UpdatedRow(d.prompts[id], a, finalPrompt)] else d.prompts)
      && o.result == (if update.Ok? then Success else Failure(UpdateFailedMessage))
    ensures o.db.favorites == d.favorites && o.db.trash == d.trash
    ensures o.db.settings == d.settings && o.db.user == d.user
  {
    match SelectOne(d, Prompts, id, fetch)
    case Failed(_) => Outcome(d, Failure(NotFoundMessage))
    case Found(current) =>
      // a failed archive is only logged: the update goes ahead
      var archived := InsertHistoryStep(d, HistoryRow(current), archive).db;
      var updated := UpdateStep(archived, id, UpdatePatch(a, finalPrompt, NextVersion(current)), update);
      Outcome(updated.db, if updated.error.Some? then Failure(UpdateFailedMessage) else Success)
  }

  /** Whatever the store answers, no prompt but `id` changes, no prompt
      appears or disappears, and the history rows already there stay. */
  lemma UpdateTouchesOnlyTarget(d: Db, id: string, a: Attributes, finalPrompt: string,
                                fetch: Reply, archive: Reply, update: Reply)
    ensures var o := UpdateOutcome(d, id, a, finalPrompt, fetch, archive, update);
      && o.db.prompts.Keys == d.prompts.Keys
      && (forall k :: k in d.prompts && k != id ==> o.db.prompts[k] == d.prompts[k])
      && |d.histories| <= |o.db.histories| && o.db.histories[..|d.histories|] == d.histories
  {
    var o := UpdateOutcome(d, id, a, finalPrompt, fetch, archive, update);
    if fetch.Ok? && id in d.prompts {
      if update.Ok? {
        ReplaceKeepsOthers(d.prompts, id, UpdatedRow(d.prompts[id], a, finalPrompt));
      }
      var added := if archive.Ok? then [HistoryRow(d.prompts[id])] else [];
      assert o.db.histories == d.histories + added;
      assert (d.histories + added)[..|d.histories|] == d.histories;
    }
  }

  lemma ReplaceKeepsOthers(m: map<string, Row>, id: string, row: Row)
    requires id in m
    ensures m[id := row].Keys == m.Keys
    ensures forall k :: k in m && k != id ==> m[id := row][k] == m[k]
  {
  }

  /** After a successful update the row holds the new content at the next
      version, and the last history row holds the content it had before. */
  lemma UpdateArchivesThenBumps(d: Db, id: string, a: Attributes, finalPrompt: string)
    requires Valid(d) && id in d.prompts
    ensures var o := UpdateOutcome(d, id, a, finalPrompt, Ok, Ok, Ok);
      && o.result == Success
      && |o.db.histories| == |d.histories| + 1
      && var h := o.db.histories[|d.histories|];
      && Lookup(h, PromptId) == Some(Str(id))
      && Lookup(h, Version) == Lookup(d.prompts[id], Version)
      && (forall k :: k in ContentKeys ==> Lookup(h, k) == Lookup(d.prompts[id], k))
      && AttributesOf(o.db.prompts[id]) == Some(a)
      && Lookup(o.db.prompts[id], FinalPrompt) == Some(Str(finalPrompt))
      && Lookup(o.db.prompts[id], Version) == Some(NextVersion(d.prompts[id]))
      && o.db.prompts[id][Id] == Str(id)
  {
    var o := UpdateOutcome(d, id, a, finalPrompt, Ok, Ok, Ok);
    UpdatedRowColumns(d.prompts[id], a, finalPrompt);
    assert o.db.histories == d.histories + [HistoryRow(d.prompts[id])];
  }

  method UpdatePrompt(db: Store, id: string, a: Attributes, finalPrompt: string,
                      fetch: Reply, archive: Reply, update: Reply) returns (r: ActionResult)
    requires db.Valid()
    modifies db
    ensures db.Valid()
    ensures Outcome(db.State(), r) == UpdateOutcome(old(db.State()), id, a, finalPrompt, fetch, archive, update)
  {
    var current := db.Select(Prompts, id, fetch);
    if current.Failed? {
      return Failure(NotFoundMessage);
    }
    var historyError := db.InsertHistory(HistoryRow(current.value), archive);
    var newVersion := NextVersion(current.value);
    var updateError := db.Update(id, UpdatePatch(a, finalPrompt, newVersion), update);
    if updateError.Some? {
      return Failure(UpdateFailedMessage);
    }
    return Success;
  }
}
