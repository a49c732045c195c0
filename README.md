# Prompt dashboard core, modelled in Dafny

The model covers the logic under the UI of a small Next.js dashboard for image-generation prompts. The dashboard keeps its data in a hosted record store, and the model replaces that store with maps held in one object, `RecordStore.Store`:

- `prompts`, keyed by id;
- `prompt_histories`, append-only;
- `favorite_prompts` and `trash`, keyed by id;
- `settings`, a map from key to value;
- the signed-in user, if any.

Every call the code makes to the store is one method of that class. The service's answer to each call (`Reply = Ok | Err(message)`) is a parameter, so each success and each error path is modelled. So are the ids the store generates on insert. Every operation also has a pure outcome function over a snapshot `Db`. The operation's method is proved to leave exactly the state, and return exactly the result, that this function gives. The properties are then proved about the outcome functions.

A row is a `map<Column, Value>`, with values `Null | Str | Num | Bool`. A key whose value would be `undefined` is simply absent, as it is once a row has been serialised to JSON. The column names of the tables are constructors of `Column`, and `Other(name)` stands for any other key. This lets "removes exactly these keys, keeps everything else" be stated directly.

Modules follow the source files:

- `PromptActions` models `updatePrompt`: archive the current row into `prompt_histories`, then overwrite it at the next version.
- `RollbackButton` and `EditPromptSheet` are the two callers of `updatePrompt`.
- `DuplicatePromptButton` and `AddToFavoriteButton` build a new row from an existing one and insert it.
- `FavoritesList` moves a favorite into the trash.
- `TrashActions` and `TrashTable` restore trash rows to the table their origin names, or delete them for good.
- `PromptTable` models the dashboard's hard delete and its merge link.
- `PromptUtils` builds the final prompt text from a fixed template.
- `MergePage` and `PromptList`: the merge page splits the selected ids and joins the prompts' texts with a banner; the link to it is built by `PromptList`.
- `PromptForm` is the required-field form.
- `KeywordsInput` is the keyword list; `ImageInput` is the image picker.
- `Settings` reads instructions with a fallback and writes them by upsert.
- `PromptsPage` marks each fetched prompt with whether it is a favorite.

Shared modules:

- `Rows` holds the record shapes and the little JavaScript value semantics used: truthiness, `??` and string `+`.
- `Text` holds `indexOf`, `split`, `join` and `trim`.
- `Collections` holds duplicate-free sequences and filtering.
- `Ui` holds the notices shown to the user.

Behaviours of the code that a reader might not expect, all modelled as written:

- A duplicate keeps the original's `version`; it is not reset.
- The merged text has no aspect-ratio marker appended.
- `updatePrompt` does no validation of its arguments.
- The two restore paths (the server action and the trash table) build the same prompt row. The id is `item_uid` when it is truthy; otherwise it is left to the store, because the stripped data no longer has an `id` (`TrashTable.RestorePathsAgree`).
- The next version is `(version || 0) + 1` with JavaScript's `+`. A non-empty string version therefore gets "1" appended instead of being incremented (`PromptActions.NextVersion`).
- A favorite whose trash insert went through but whose delete failed stays a favorite and also has a trash entry.
- A bulk restore whose favorites insert fails keeps the prompts it already inserted.
- The merge page with `ids=` (present but empty) splits it into `[""]`, so it fetches instead of showing the no-selection view (`MergePage.ParseIds`).
- On the prompts page, a favorite without a `prompt_id` marks a prompt without an `id` as a favorite. Both are `undefined`, and `Set.has(undefined)` finds it (`PromptsPage.FavoriteIds`).

## Model

| member | source | states |
|---|---|---|
| Rows.FromRowColumns | lib/types.ts:1-46 | a row read as a `Prompt` holds that prompt's ten attributes, `final_prompt`, numeric `version` and `id` |
| Rows.AttributesRoundTrip | app/actions/prompt.ts:6-17 | the columns written for a set of attributes read back as exactly those attributes |
| Rows.AttributesOfColumns | app/actions/prompt.ts:6-17 | reading the attributes of a row depends on the ten attribute columns alone |
| Rows.AttributesRow | app/actions/prompt.ts:68-72 | spreading the attributes writes exactly the ten attribute columns |
| PromptActions.HistoryRow | app/actions/prompt.ts:40-56 | the archived row has `prompt_id` = the row's id, its version, its eleven content columns, and nothing else |
| PromptActions.NextVersion | app/actions/prompt.ts:66 | a falsy version (missing, null, zero, false or "") gives 1; a number goes up by one; `true` gives 2; a non-empty string gets "1" appended, as JavaScript's `+` does |
| PromptActions.UpdatePatch | app/actions/prompt.ts:68-75 | the patch holds exactly the ten attribute columns with the given values, the given final prompt and the new version, and never an `id` |
| PromptActions.UpdatedRow | app/actions/prompt.ts:68-75 | the merged row keeps its id and every column it had, and gains exactly the ten attribute columns, `final_prompt` and `version`, each attribute column holding the given value |
| PromptActions.UpdatedRowColumns | app/actions/prompt.ts:68-75 | the updated row holds exactly the given attributes, the final prompt and the next version; every column outside those is unchanged |
| PromptActions.UpdateWithOwnContent | app/actions/prompt.ts:68-75 | writing a row's own attributes and final prompt back changes none of its content; only its version moves on |
| PromptActions.UpdateOutcome | app/actions/prompt.ts:19-90 | a failed fetch or missing id gives "Prompt not found" with no change; otherwise the history gains the archived row exactly when the archive insert succeeds, the update goes ahead even after a failed archive, an update error gives "Failed to update prompt" with the prompt unchanged, and the other tables never change |
| PromptActions.UpdateTouchesOnlyTarget | app/actions/prompt.ts:40-80 | on every answer of the store, no prompt appears or disappears, no prompt other than the target changes, and the history rows already there stay as a prefix |
| PromptActions.UpdateArchivesThenBumps | app/actions/prompt.ts:40-75 | after a successful update the history has one more row, holding the pre-update version and content under `prompt_id` = the id, and the row holds the new attributes and final prompt at the next version under the same id |
| PromptActions.UpdatePrompt | app/actions/prompt.ts:19-90 | the fetch, archive and update calls leave the store, and return the result, that `UpdateOutcome` gives |
| RollbackButton.RollbackAttributes | components/prompts/rollback-button.tsx:35-46 | the attributes passed always have a non-null `details` |
| RollbackButton.RollbackPassesSnapshot | components/prompts/rollback-button.tsx:35-46 | the attributes passed are exactly the snapshot's attribute fields, with a null `details` passed as "" |
| RollbackButton.AfterRollback | components/prompts/rollback-button.tsx:50-55 | a success closes the dialog with the success toast; a failure keeps it open and shows the error, or the fallback text when the error is empty |
| RollbackButton.RollbackRestoresSnapshot | components/prompts/rollback-button.tsx:33-47 | a rollback the store lets through leaves the live prompt `promptId`, not the snapshot's own id, at the next version with the snapshot's attributes and `final_prompt` |
| RollbackButton.RollbackButton.HandleRollback | components/prompts/rollback-button.tsx:30-61 | calls `updatePrompt` on `promptId` with the snapshot's content, ends not loading, and sets the dialog and toast as `AfterRollback` says |
| EditPromptSheet.InitialData | components/prompts/edit-prompt-sheet.tsx:29-41 | the seed holds every form field, all typed as text except the nullable `details` |
| EditPromptSheet.SeededForm | components/prompts/edit-prompt-sheet.tsx:29-41 | the form opens holding each snake_case column under its camelCase field, and `final_prompt` as `fullPrompt` |
| EditPromptSheet.UnchangedSubmitRoundTrip | components/prompts/edit-prompt-sheet.tsx:29-62 | submitting the form as seeded passes the row's own ten attributes and `final_prompt` |
| EditPromptSheet.AfterSubmit | components/prompts/edit-prompt-sheet.tsx:64-69 | a success closes the sheet with no error; a failure keeps it as it was and shows `result.error`, or the fallback when that is empty |
| EditPromptSheet.SubmitAttributes | components/prompts/edit-prompt-sheet.tsx:49-60 | each snake_case attribute passed to the update is the camelCase form field of the same name, `details` included as it stands, null or not |
| EditPromptSheet.EditPromptSheet.HandleSubmit | components/prompts/edit-prompt-sheet.tsx:43-76 | passes the camelCase fields back as snake_case attributes with `fullPrompt` as the final prompt, then sets the sheet as `AfterSubmit` says |
| DuplicatePromptButton.DuplicateRow | components/prompts/duplicate-prompt-button.tsx:45-55 | the copy has no `id` and no `created_at`, the acting user as `user_id`, `core_theme` followed by " (Copy)", a null or missing `details` as "", and every other column, `version` included, unchanged |
| DuplicatePromptButton.DuplicateOfPrompt | components/prompts/duplicate-prompt-button.tsx:45-55 | the copy read back under its new id is the original prompt renamed, with its new owner, no creation time and a non-null `details` |
| DuplicatePromptButton.DuplicateOutcome | components/prompts/duplicate-prompt-button.tsx:31-72 | without a user nothing is inserted and the auth alert is raised; on an error nothing changes; no existing prompt is modified, and no other table changes |
| DuplicatePromptButton.DuplicateAddsCopy | components/prompts/duplicate-prompt-button.tsx:50-55 | an accepted insert adds exactly the copy, under the generated id |
| DuplicatePromptButton.DuplicatePromptButton.HandleDuplicateClick | components/prompts/duplicate-prompt-button.tsx:27-29 | the click opens the confirmation dialog and starts nothing else |
| DuplicatePromptButton.DuplicatePromptButton.HandleDuplicateConfirm | components/prompts/duplicate-prompt-button.tsx:31-72 | the store ends as `DuplicateOutcome` says; the dialog closes and the page goes to "/" only when the copy was stored; an error is alerted and no route is pushed |
| AddToFavoriteButton.FavoritePayload | components/prompts/add-to-favorite-button.tsx:33-48 | the payload has no `id` and no `created_at`, the acting user as `user_id`, a null or missing `details` as "", and every other column unchanged |
| AddToFavoriteButton.AddFavoriteOutcome | components/prompts/add-to-favorite-button.tsx:19-69 | a click while loading does nothing; without a user nothing is inserted and the state returns to idle; success is the only stored outcome and the other tables never change |
| AddToFavoriteButton.SuccessMeansStored | components/prompts/add-to-favorite-button.tsx:21-67 | the button shows success exactly when it was not loading, a user is signed in and the insert went through, and then the payload is stored under the generated id |
| AddToFavoriteButton.AddToFavoriteButton.HandleAddToFavorite | components/prompts/add-to-favorite-button.tsx:19-69 | the store, the button state and the alert end as `AddFavoriteOutcome` says |
| AddToFavoriteButton.AddToFavoriteButton.ResetTimerFires | components/prompts/add-to-favorite-button.tsx:59 | the reset after success puts the button back to idle |
| FavoritesList.TrashEntryFor | app/favorites/favorites-list.tsx:40-60 | the trash entry has no `id`, and its `item_uid` is the favorite's id |
| FavoritesList.TrashEntryColumns | app/favorites/favorites-list.tsx:40-58 | the entry holds only the allow-listed columns, copied unchanged, plus the acting user and the origin "FAVORITE" |
| FavoritesList.RemoveById | app/favorites/favorites-list.tsx:79 | the local list keeps exactly the entries whose id is not the deleted one |
| FavoritesList.RemoveByIdAppend | app/favorites/favorites-list.tsx:79 | the filter works entry by entry, so the kept entries stay in order |
| FavoritesList.RemoveByIdOne | app/favorites/favorites-list.tsx:79 | an entry with another id is kept, one with the deleted id is dropped |
| FavoritesList.DeleteFavoriteOutcome | app/favorites/favorites-list.tsx:16-86 | a failed fetch, a missing favorite or no user changes nothing; a failed trash insert changes nothing and raises an alert; the trash changes only when that insert went through, and then holds exactly what it stored; the favorite leaves only after that |
| FavoritesList.DeleteMovesToTrash | app/favorites/favorites-list.tsx:40-77 | when every call goes through, the favorite leaves `favorite_prompts` and its trash entry, with `item_uid` = the favorite's id, is stored under the generated id |
| FavoritesList.FavoritesList.HandleDelete | app/favorites/favorites-list.tsx:16-86 | the store ends as `DeleteFavoriteOutcome` says; the local list loses the entry on success and is unchanged on any failure |
| TrashActions.StripTrashMetadata | app/actions/trash.ts:6-25 | removes exactly the seven bookkeeping columns and keeps every other key and value |
| TrashActions.StripIdempotent | app/actions/trash.ts:6-25 | stripping twice is stripping once |
| TrashActions.RestoreData | app/actions/trash.ts:45-46 | the restored data is the trash row without `origin_type`, `item_uid` and the bookkeeping columns, with every other value unchanged |
| TrashActions.RestoredFavorite | app/actions/trash.ts:55-66 | a favorite comes back with the current user as `user_id`, a null `item_uid`, no `id`, no bookkeeping columns, and every other column of the trash row |
| TrashActions.RestoredPrompt | app/actions/trash.ts:71-79 | a prompt comes back under `item_uid` when it is truthy and with no `id` otherwise, with every non-bookkeeping column of the trash row |
| TrashActions.RestoreOutcome | app/actions/trash.ts:27-107 | a failed fetch, a missing row or no user gives a failure with no change; a failed insert gives a failure with no change; a success needs the fetch, the insert into the table the origin names and the delete to have gone through, and only a success takes the row out of the trash; failures are returned, never thrown |
| TrashActions.FavoriteTrashRoundTrip | app/actions/trash.ts:55-66 | a favorite moved to the trash and restored comes back to `favorite_prompts` with every allow-listed column of the original, owned by the restoring user, with a null `item_uid` and no id |
| TrashActions.RestoreMovesRow | app/actions/trash.ts:55-94 | when every call goes through, the trash row leaves the trash and its restored row is stored in the table its origin names, and the other table is unchanged |
| TrashActions.RestorePrompt | app/actions/trash.ts:27-107 | the calls leave the store, and return the result, that `RestoreOutcome` gives |
| TrashActions.DeleteTrashOutcome | app/actions/trash.ts:109-128 | a success removes only that trash row; an error changes nothing and returns the prefixed message |
| TrashActions.DeleteTrashPrompt | app/actions/trash.ts:109-128 | the delete leaves the store, and returns the result, that `DeleteTrashOutcome` gives |
| TrashTable.RestoredPromptInTable | components/prompts/trash-table.tsx:211-223 | the restored prompt has `item_uid` as its id when that is truthy and no id otherwise, and every non-bookkeeping column of the trash row |
| TrashTable.PromptsToRestore | components/prompts/trash-table.tsx:209-225 | at most one prompt per fetched row, each the restored form of a fetched row whose origin is not "FAVORITE" |
| TrashTable.FavoritesToRestore | components/prompts/trash-table.tsx:209-225 | at most one favorite per fetched row, each the restored form of a fetched row whose origin is "FAVORITE" |
| TrashTable.RestorePathsAgree | components/prompts/trash-table.tsx:135-137 | the table builds the same restored prompt as the server action |
| TrashTable.PartitionSizes | components/prompts/trash-table.tsx:207-226 | every fetched row goes to exactly one list, so the list sizes sum to the number fetched |
| TrashTable.PartitionRoutes | components/prompts/trash-table.tsx:214-224 | a row with origin "FAVORITE" lands in the favorites list, any other row in the prompts list |
| TrashTable.FavoritesOwned | components/prompts/trash-table.tsx:214-220 | every favorite-bound row has the current user, a null `item_uid` and no id |
| TrashTable.PartitionForRestore | components/prompts/trash-table.tsx:207-226 | the loop builds exactly the two lists, in fetched order |
| TrashTable.InsertIfAny | components/prompts/trash-table.tsx:228-248 | an empty list sends nothing; an error changes nothing; no table other than the target changes |
| TrashTable.BulkRestoreOutcome | components/prompts/trash-table.tsx:189-261 | a failed fetch or no user changes nothing; a failed prompts batch changes nothing; a failed favorites batch keeps the prompts already stored and the whole trash; a success needs both batches and the delete to have gone through, and only a success takes the selected rows out of the trash |
| TrashTable.BulkRestoreMovesRows | components/prompts/trash-table.tsx:228-259 | when every call goes through, the selected rows leave the trash and both lists are stored |
| TrashTable.EmptyBatchNotSent | components/prompts/trash-table.tsx:228-239 | an empty list is not sent, so the store's answer to it cannot matter |
| TrashTable.BulkDeleteOutcome | components/prompts/trash-table.tsx:263-270 | a success removes exactly the selected trash ids; an error changes nothing |
| TrashTable.ActionOutcome | components/prompts/trash-table.tsx:89-168 | the single-row action keeps the store valid and the other tables as they were; only a success changes the trash, by removing exactly that row; a delete touches no table but the trash |
| TrashTable.BulkActionOutcome | components/prompts/trash-table.tsx:189-273 | the bulk action keeps the store valid and the other tables as they were; only a success changes the trash, by removing exactly the selected rows; a delete touches no table but the trash |
| TrashTable.AfterAction | components/prompts/trash-table.tsx:170-177 | a success clears the pending id and action; a failure keeps them and alerts with the action's name |
| TrashTable.AfterBulk | components/prompts/trash-table.tsx:275-277 | a success empties the selection and closes the dialog; a failure keeps all three |
| TrashTable.BulkNotice | components/prompts/trash-table.tsx:261-283 | a failure shows the error toast with the action's name; a success shows a success toast |
| TrashTable.TrashTable.HandleAction | components/prompts/trash-table.tsx:84-181 | with no id or no action nothing happens at all; otherwise the store ends as the restore or delete action says, processing ends, and the pending state and alert follow `AfterAction` |
| TrashTable.TrashTable.RunAction | components/prompts/trash-table.tsx:89-168 | the single-row store calls do what `RestoreOutcome` or `DeleteTrashOutcome` says |
| TrashTable.TrashTable.RestoreInTable | components/prompts/trash-table.tsx:89-157 | the table's restore leaves the store as the server action's `RestoreOutcome` says |
| TrashTable.TrashTable.HandleBulkAction | components/prompts/trash-table.tsx:183-287 | with an empty selection or no action nothing happens at all; otherwise the store ends as the bulk outcome says, the toast follows `BulkNotice`, and the selection, dialog and action follow `AfterBulk` |
| TrashTable.TrashTable.RunBulk | components/prompts/trash-table.tsx:189-273 | the bulk store calls do what the bulk restore or bulk delete outcome says |
| TrashTable.TrashTable.BulkDelete | components/prompts/trash-table.tsx:263-270 | the bulk delete leaves the store as `BulkDeleteOutcome` says |
| TrashTable.TrashTable.BulkRestore | components/prompts/trash-table.tsx:189-259 | the fetch, partition, conditional inserts and delete leave the store as `BulkRestoreOutcome` says |
| PromptTable.HardDeleteOutcome | components/prompt-table.tsx:67-84 | with no `deleteId` nothing happens; a success removes exactly that prompt; an error changes nothing and gives the prefixed message |
| PromptTable.HardDeleteTouchesOnlyPrompts | components/prompt-table.tsx:72-75 | the delete writes no trash row, favorite or history, keeps every other prompt, and removes the prompt on success |
| PromptTable.PromptTable.HandleDelete | components/prompt-table.tsx:67-92 | the store ends as `HardDeleteOutcome` says; a success clears `deleteId` and the selection, an error keeps both and alerts |
| PromptTable.PromptTable.HandleMerge | components/prompt-table.tsx:94-100 | the route is `MergeTarget` of the selection: none when it is empty |
| PromptUtils.GenerateFullPrompt | lib/utils.ts:9-12 | the text is as long as the ten fields plus 24, starts with `core_theme` and ends with "-- ar " and the ratio |
| PromptUtils.TemplateIsJoin | lib/utils.ts:10 | the text is the nine fields and "-- ar " + ratio joined by ", " |
| PromptUtils.SplitRecoversFields | lib/utils.ts:10 | when no field holds ", ", splitting the text on ", " gives back the nine fields in order and then the marker with the ratio |
| MergePage.ParseIds | app/merge/page.tsx:14 | an absent parameter gives no ids, and only an absent one does; a present one is split on "," |
| MergePage.Survivors | app/merge/page.tsx:49-50 | every kept text is non-blank after trimming, and there are no more of them than rows |
| MergePage.SurvivorsAppend | app/merge/page.tsx:48-50 | the texts are kept in fetched order |
| MergePage.SurvivorsOne | app/merge/page.tsx:49-50 | one row's text is kept, unchanged, exactly when it is not blank |
| MergePage.BlankRowDropped | app/merge/page.tsx:49-51 | a row whose final prompt is blank or missing leaves the merged text as it is without it |
| MergePage.MergedText | app/merge/page.tsx:48-51 | no kept text gives "", a single one gives exactly that text |
| MergePage.MergedAppend | app/merge/page.tsx:51 | two parts that keep text are separated by exactly one banner, and a part keeping none adds nothing, so no banner leads or trails |
| MergePage.MergeViewOf | app/merge/page.tsx:14-67 | the no-selection view appears exactly when the parameter is absent; an error gives the error view with "Unknown error" as fallback; otherwise the count and merged text of the fetched rows |
| PromptList.Toggle | components/prompt-list.tsx:19-27 | selecting adds the id, deselecting removes it, no other member changes, and a selection without repeats keeps none |
| PromptList.ToggleOnAppends | components/prompt-list.tsx:21-22 | adding a new id puts it last |
| PromptList.ToggleTwice | components/prompt-list.tsx:19-27 | toggling the same id the same way twice is toggling it once |
| PromptList.MergeTarget | components/prompt-list.tsx:29-33 | an empty selection pushes no route; any other starts with "/merge?ids=" |
| PromptList.MergeIdsRoundTrip | components/prompt-list.tsx:31 | splitting the parameter on the merge page gives back the selected ids, when none holds a "," |
| PromptList.PromptList.ToggleSelection | components/prompt-list.tsx:19-27 | the selection becomes `Toggle` of the old one and stays free of repeats |
| PromptList.PromptList.HandleMerge | components/prompt-list.tsx:29-33 | the route is `MergeTarget` of the selection |
| PromptForm.Get | components/prompts/prompt-form.tsx:16-28 | every field except `details` holds text |
| PromptForm.WithField | components/prompts/prompt-form.tsx:123 | editing a field sets it and changes no other field |
| PromptForm.SpreadFields | components/prompts/prompt-form.tsx:67-75 | merging `initialData` takes each present field from it and keeps the others |
| PromptForm.InitialState | components/prompts/prompt-form.tsx:51-64 | every field starts as "", overridden by any field present in `initialData` |
| PromptForm.RequiredMessage | components/prompts/prompt-form.tsx:80-106 | every required field has a non-empty message |
| PromptForm.FormErrors | components/prompts/prompt-form.tsx:80-106 | the error map has exactly the blank required fields as keys, each with its message |
| PromptForm.CheckStep | components/prompts/prompt-form.tsx:80-106 | one check adds that field's error exactly when it is blank |
| PromptForm.ValidationMatchesFormErrors | components/prompts/prompt-form.tsx:77-110 | the nine checks in sequence give exactly `FormErrors` |
| PromptForm.ValidIffRequiredFilled | components/prompts/prompt-form.tsx:77-110 | the form is valid exactly when all nine required fields are non-blank after trimming; `details` and `fullPrompt` never have an error |
| PromptForm.FillClearsError | components/prompts/prompt-form.tsx:122-131 | filling a field with non-blank text removes exactly that field's error |
| PromptForm.BlankSetsError | components/prompts/prompt-form.tsx:80-106 | blanking a required field adds exactly that field's error |
| PromptForm.EditKeepsOtherError | components/prompts/prompt-form.tsx:122-131 | editing one field does not change whether another has an error |
| PromptForm.InputChangeKeepsErrorsCurrent | components/prompts/prompt-form.tsx:122-131 | after a validation, filling in a field leaves exactly the errors a new validation would report |
| PromptForm.PromptForm.constructor | components/prompts/prompt-form.tsx:49-64 | the form starts as `InitialState` of `initialData`, with no errors |
| PromptForm.PromptForm.Hydrate | components/prompts/prompt-form.tsx:67-75 | the form data becomes the old data merged with `initialData` |
| PromptForm.PromptForm.ValidateForm | components/prompts/prompt-form.tsx:77-110 | records exactly `FormErrors` of the data and answers whether there are none |
| PromptForm.PromptForm.HandleSubmit | components/prompts/prompt-form.tsx:112-120 | hands the current data on exactly when the form is valid |
| PromptForm.PromptForm.HandleInputChange | components/prompts/prompt-form.tsx:122-132 | sets only that field, and drops only that field's error, if it had one |
| KeywordsInput.AddKeyword | components/create/keywords-input.tsx:26-32 | the list keeps its keywords in order and grows by at most one; the keywords afterwards are those before plus the trimmed text when that is not blank; when nothing is added nothing changes, and when a keyword is added the box is cleared |
| KeywordsInput.AddKeepsWellFormed | components/create/keywords-input.tsx:26-32 | adding keeps the list free of repeats, with every keyword non-empty and trimmed |
| KeywordsInput.RemoveKeepsWellFormed | components/create/keywords-input.tsx:34-36 | removing keeps the list well formed |
| KeywordsInput.AddThenRemove | components/create/keywords-input.tsx:29-35 | adding a new keyword and removing it again gives the list back |
| KeywordsInput.KeywordsInput.SetInput | components/create/keywords-input.tsx:26-32 | typing changes the text box only |
| KeywordsInput.KeywordsInput.Add | components/create/keywords-input.tsx:26-32 | appends the trimmed text and clears the box, unless it is blank or already listed, when nothing changes; keeps the list well formed |
| KeywordsInput.KeywordsInput.Remove | components/create/keywords-input.tsx:34-36 | drops that keyword, keeps the order of the rest and the list well formed |
| Collections.Without | components/create/keywords-input.tsx:35 | keeps every other member, in order, and keeps a list free of repeats |
| Collections.WithoutAppend | components/create/keywords-input.tsx:35 | the filter works member by member: filtering a concatenation is filtering each part, so the kept members keep their order |
| Collections.WithoutOne | components/create/keywords-input.tsx:35 | a single member is kept exactly when it is not the one deleted |
| Collections.WithoutAbsent | components/prompt-list.tsx:24 | deleting a member that is not there changes nothing |
| Collections.WithoutLast | components/create/keywords-input.tsx:35 | deleting the member just appended leaves what deleting it from the rest leaves |
| ImageInput.CheckFile | components/create/image-input.tsx:21-29 | a file is accepted exactly when its type starts with "image/" and its size is at most 5 MB, exactly 5 MB included; the type check comes first |
| ImageInput.Base64Part | components/create/image-input.tsx:49 | there is a part to send exactly when the data URL holds a "," |
| ImageInput.Base64OfDataUrl | components/create/image-input.tsx:49 | for `header,payload` the part sent is the payload |
| ImageInput.Base64DropsRest | components/create/image-input.tsx:49 | any further ","-separated part is dropped |
| ImageInput.ImageInput.HandleFileChange | components/create/image-input.tsx:17-37 | no file changes nothing; a rejected file sets its error and keeps the preview; an accepted one clears the error and becomes the preview |
| ImageInput.ImageInput.HandleRemoveImage | components/create/image-input.tsx:39-44 | clears the preview and nothing else |
| ImageInput.ImageInput.HandleGenerate | components/create/image-input.tsx:46-52 | without a preview nothing is called; otherwise the part after the first "," is passed |
| Settings.InstructionValue | lib/services/settings.ts:7-24 | the stored value when the read finds the row; the built-in default when the read fails or the row is missing |
| Settings.UpdateOutcome | lib/services/settings.ts:26-37 | an accepted upsert stores the value and returns `true`; an error changes nothing and throws the prefixed message |
| Settings.GetAfterUpdate | lib/services/settings.ts:26-37 | after an update that went through, a read that goes through returns the value written |
| Settings.KeysIndependent | lib/services/settings.ts:9-62 | writing one instruction leaves what the other reads unchanged, on every answer of either call |
| Settings.GetSystemInstruction | lib/services/settings.ts:7-24 | returns `InstructionValue` for "system_instruction" |
| Settings.UpdateSystemInstruction | lib/services/settings.ts:26-37 | leaves the store and returns as `UpdateOutcome` says for "system_instruction" |
| Settings.GetImageAnalysisInstruction | lib/services/settings.ts:39-56 | returns `InstructionValue` for "image_analysis_instruction", with its own default |
| Settings.UpdateImageAnalysisInstruction | lib/services/settings.ts:58-71 | leaves the store and returns as `UpdateOutcome` says for "image_analysis_instruction" |
| PromptsPage.FavoriteIds | app/prompts.tsx:35-40 | a failed favorites read gives no ids |
| PromptsPage.Annotate | app/prompts.tsx:42-45 | as many rows as before, each with `is_favorite` true exactly when its id is among the ids |
| PromptsPage.AnnotateKeepsColumns | app/prompts.tsx:42-45 | every other column of every row is unchanged and in the same order |
| PromptsPage.PromptsViewOf | app/prompts.tsx:13-48 | a fetch error gives the error view and only then; without a user the rows are shown unannotated; the table keeps the number of rows |
| PromptsPage.FavoriteIffListed | app/prompts.tsx:34-45 | with a user, a row is a favorite exactly when one of that user's favorites names its id as `prompt_id` |
| Text.SplitJoin | app/merge/page.tsx:14 | splitting a join on a separator no piece holds gives the pieces back |
| Text.SplitAfterFirst | components/create/image-input.tsx:49 | splitting at a first piece without the separator gives that piece, then the split of the rest |
| Text.IndexOf | components/create/image-input.tsx:49 | finds the first occurrence of the separator, or reports there is none |
| Text.Trim | components/create/keywords-input.tsx:27 | the trimmed text has no white space at either end and is no longer than the text |
| Text.TrimIsSlice | components/create/keywords-input.tsx:27 | the trimmed text is a middle slice of the text, and everything cut off at either end is white space |
| Text.TrimEmptyIffBlank | app/merge/page.tsx:50 | the trimmed text is empty exactly when the text is all white space |
| Text.TrimIdempotent | components/create/keywords-input.tsx:27 | trimming a trimmed text changes nothing |
| RecordStore.Store.Select | app/actions/prompt.ts:28-32 | a read by id returns the row, or a failure when the call fails or no row has that id |
| RecordStore.Store.Insert | app/favorites/favorites-list.tsx:61-64 | the insert changes the store as `InsertStep` says: every row or none, under its own id or a generated one |
| RecordStore.InsertAllKeeps | components/prompts/trash-table.tsx:228-231 | a batch insert keeps every row already there and adds one row per batch entry |
| RecordStore.InsertOne | app/favorites/favorites-list.tsx:61-64 | inserting one row stores it, with its id, under a key not used before |

## Left out

- The network, authentication and row-level security are left out. The store's answer to each call, the signed-in user and the ids it generates are parameters.
- `revalidatePath` and `router.refresh` (cache invalidation and routing) are left out; they change no modelled state. `router.push` is modelled as a returned route: the merge links of the prompt list and table, and the duplicate button's move to "/".
- Timers are left out, such as the reset of the favorite button. `AddToFavoriteButton.AddToFavoriteButton.ResetTimerFires` is the timer having fired.
- `alert`, toast and console output are modelled only as the returned `Notice`.
- `FileReader` is modelled as delivering the data URL at once. The file input's `value` reset is not modelled.
- The clipboard copy on the merge page is left out, and so is its rendering beyond the count and the text.
- The catch branches for unexpected exceptions are left out: "An unexpected error occurred", the unknown-error texts of the server actions, and the `instanceof Error` test. Every store failure the model knows comes back as a `Reply`.
- The built-in default instructions of lib/gemini/config.ts are the `fallback` parameter. The Gemini and OpenAI adapters and app/actions/settings.ts are not part of this model.
- Concurrent updates are left out. There is no compare-and-swap on the version bump.
- Ordering by `created_at` is left out; the dashboard's fetched list is a parameter of `PromptsPage.PromptsViewOf`.
- RecordStore.SelectIn: an `in("id", ids)` read returns the rows in the order of the listed ids, each once. The store guarantees no order.
- A read that returns neither data nor an error (`!data` without `error`) is not modelled. Nor is `(prompts as Prompt[]) || []`.
- Database defaults such as `deleted_at` on the trash table are not modelled, and neither are the column types the store would enforce on insert.
- URL encoding of the merge parameter is not modelled: the ids are joined as they are.
- MergePage.FinalText: a `final_prompt` that is truthy but not a string counts as no text.
- PromptsPage.PromptsViewOf: when a user is signed in, the rows are those of `Annotate`, which `PromptsPage.FavoriteIffListed` states. The function's own contract states only the length.
- Selections are sequences without repeats, taken in whatever order they are given, so every property holds for any order. A JavaScript `Set` lists its members in insertion order. `Object.keys` of the prompt table's selection lists the UUID keys in insertion order, but for the trash table's selection it lists the store's integer ids in ascending numeric order. `.in("id", ids)` is modelled as returning the rows in the order of `ids`; the store returns them in an order of its own, and in a bulk restore that order only decides which generated id each restored row receives.
- The older components/add-to-favorite-button.tsx and the two prompt cards' delete are not part of this model.
