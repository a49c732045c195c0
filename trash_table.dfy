/** The trash page table (components/prompts/trash-table.tsx): restoring or
    deleting one trash row from its menu, and restoring or deleting every
    selected row at once. */
module TrashTable {
  import opened Options
  import opened Rows
  import opened RecordStore
  import opened TrashActions
  import opened Ui

  const RestorePromptsPrefix := "Failed to restore prompts: "
  const RestoreFavoritesPrefix := "Failed to restore favorites: "

  /** `"restore" | "delete"`, the two actions the table offers. */
  datatype Action = Restore | Delete

  function ActionName(a: Action): string
  {
    match a
    case Restore => "restore"
    case Delete => "delete"
  }

  /** `item_uid ? { ...rest, id: item_uid } : rest`, the table's own way of
      building a restored prompt. */
  function RestoredPromptInTable(item: Row): (r: Row)
    ensures Truthy(Lookup(item, ItemUid)) ==> Lookup(r, Id) == Lookup(item, ItemUid)
    ensures !Truthy(Lookup(item, ItemUid)) ==> Id !in r
    ensures forall k :: k !in TrashMetadataKeys + {OriginType, ItemUid} ==> Lookup(r, k) == Lookup(item, k)
  {
    var rest := RestoreData(item);
    if Truthy(Lookup(item, ItemUid)) then rest[Id := item[ItemUid]] else rest
  }

  /** The table and the `restorePrompt` action build the same row: the id is
      `item_uid` when it is truthy, and is otherwise left to the store. */
  lemma RestorePathsAgree(item: Row)
    ensures RestoredPromptInTable(item) == RestoredPrompt(item)
  {
    assert Id !in RestoreData(item);
  }

  /** The prompts a bulk restore inserts: one per fetched row whose origin is
      not "FAVORITE", in fetched order. */
  function PromptsToRestore(items: seq<Row>): (r: seq<Row>)
    ensures |r| <= |items|
    ensures forall x :: x in r ==>
      exists j :: 0 <= j < |items| && !IsFavoriteOrigin(items[j]) && x == RestoredPromptInTable(items[j])
    decreases |items|
  {
    if items == [] then []
    else
      var last := items[|items| - 1];
      PromptsToRestore(items[..|items| - 1]) + (if IsFavoriteOrigin(last) then [] else [RestoredPromptInTable(last)])
  }

  /** The favorites a bulk restore inserts: one per fetched row whose origin
      is "FAVORITE", in fetched order. */
  function FavoritesToRestore(items: seq<Row>, user: string): (r: seq<Row>)
    ensures |r| <= |items|
    ensures forall x :: x in r ==>
      exists j :: 0 <= j < |items| && IsFavoriteOrigin(items[j]) && x == RestoredFavorite(items[j], user)
    decreases |items|
  {
    if items == [] then []
    else
      var last := items[|items| - 1];
      FavoritesToRestore(items[..|items| - 1], user) + (if IsFavoriteOrigin(last) then [RestoredFavorite(last, user)] else [])
  }

  /** Each fetched row goes to exactly one of the two lists. */
  lemma {:induction false} PartitionSizes(items: seq<Row>, user: string)
    ensures |PromptsToRestore(items)| + |FavoritesToRestore(items, user)| == |items|
    decreases |items|
  {
    if items != [] {
      PartitionSizes(items[..|items| - 1], user);
    }
  }

  /** Each fetched row's restored form lands in the list its origin names. */
  lemma {:induction false} PartitionRoutes(items: seq<Row>, user: string, i: nat)
    requires i < |items|
    ensures IsFavoriteOrigin(items[i]) ==> RestoredFavorite(items[i], user) in FavoritesToRestore(items, user)
    ensures !IsFavoriteOrigin(items[i]) ==> RestoredPromptInTable(items[i]) in PromptsToRestore(items)
    decreases |items|
  {
    if i < |items| - 1 {
      var init := items[..|items| - 1];
      assert items[i] == init[i];
      PartitionRoutes(init, user, i);
    }
  }

  /** Every favorite-bound row is owned by the restoring user, has a null
      `item_uid` and no id. */
  lemma {:induction false} FavoritesOwned(items: seq<Row>, user: string)
    ensures forall x :: x in FavoritesToRestore(items, user) ==>
      Id !in x && Lookup(x, UserId) == Some(Str(user)) && Lookup(x, ItemUid) == Some(Null)
    decreases |items|
  {
    if items != [] {
      FavoritesOwned(items[..|items| - 1], user);
    }
  }

  /** The `forEach` that sorts the fetched trash rows into the two lists. */
  method PartitionForRestore(items: seq<Row>, user: string) returns (prompts: seq<Row>, favorites: seq<Row>)
    ensures prompts == PromptsToRestore(items)
    ensures favorites == FavoritesToRestore(items, user)
  {
    prompts, favorites := [], [];
    var i := 0;
    while i < |items|
      invariant 0 <= i <= |items|
      invariant prompts == PromptsToRestore(items[..i])
      invariant favorites == FavoritesToRestore(items[..i], user)
    {
      var item := items[i];
      assert items[..i + 1][..i] == items[..i];
      if IsFavoriteOrigin(item) {
        favorites := favorites + [RestoredFavorite(item, user)];
      } else {
        prompts := prompts + [RestoredPromptInTable(item)];
      }
      i := i + 1;
    }
    assert items[..i] == items;
  }

  /** The trash ids a selection names. */
  function IdSet(ids: seq<string>): set<string>
  {
    set x | x in ids
  }

  /** An insert, skipped when there is nothing to insert. */
  function InsertIfAny(d: Db, t: Table, rows: seq<Row>, gen: nat -> string, reply: Reply): (s: Step)
    ensures rows == [] ==> s == Step(d, None)
    ensures Valid(d) ==> Valid(s.db)
    ensures s.error.Some? ==> s.db == d
    ensures s.db.histories == d.histories && s.db.settings == d.settings && s.db.user == d.user
    ensures forall u :: u != t ==> RowsOf(s.db, u) == RowsOf(d, u)
  {
    if rows == [] then Step(d, None) else InsertStep(d, t, rows, gen, reply)
  }

  /** The batch insert of the selected prompt rows. */
  function PromptsBatch(d: Db, selected: seq<string>, genPrompts: nat -> string, insertPrompts: Reply): Step
  {
    InsertIfAny(d, Prompts, PromptsToRestore(SelectIn(d.trash, selected)), genPrompts, insertPrompts)
  }

  /** The batch insert of the selected favorite rows, sent after the prompts batch. */
  function FavoritesBatch(d: Db, selected: seq<string>, user: string, genPrompts: nat -> string,
                          insertPrompts: Reply, genFavorites: nat -> string, insertFavorites: Reply): Step
  {
    InsertIfAny(PromptsBatch(d, selected, genPrompts, insertPrompts).db, Favorites,
                FavoritesToRestore(SelectIn(d.trash, selected), user), genFavorites, insertFavorites)
  }

  /** What the bulk restore of `selected` does to the store and returns. The
      selected rows leave the trash only once both batches are stored; a
      failed prompts batch leaves the store as it was, and a failed
      favorites batch leaves the trash as it was. */
  function BulkRestoreOutcome(d: Db, selected: seq<string>, fetch: Reply, insertPrompts: Reply,
                              insertFavorites: Reply, delete: Reply, genPrompts: nat -> string,
                              genFavorites: nat -> string): (o: Outcome)
    ensures Valid(d) ==> Valid(o.db)
    ensures fetch.Err? || d.user.None? ==> o.db == d && o.result.Failure?
    ensures o.db.histories == d.histories && o.db.settings == d.settings && o.db.user == d.user
    ensures o.result.Success? ==> o.db.trash == d.trash - IdSet(selected)
    ensures o.db.trash != d.trash ==> o.result.Success?
    ensures o.result.Success? ==>
      && fetch.Ok? && d.user.Some? && delete.Ok?
      && PromptsBatch(d, selected, genPrompts, insertPrompts).error.None?
      && FavoritesBatch(d, selected, d.user.value, genPrompts, insertPrompts, genFavorites, insertFavorites).error.None?
    ensures fetch.Ok? && d.user.Some? && PromptsBatch(d, selected, genPrompts, insertPrompts).error.Some? ==>
      o.db == d && o.result.Failure?
    ensures fetch.Ok? && d.user.Some?
            && FavoritesBatch(d, selected, d.user.value, genPrompts, insertPrompts, genFavorites, insertFavorites).error.Some? ==>
      o.db == PromptsBatch(d, selected, genPrompts, insertPrompts).db && o.db.trash == d.trash && o.result.Failure?
  {
    match SelectMany(d, Trash, selected, fetch)
    case Failed(message) => Outcome(d, Failure(FetchTrashPrefix + message))
    case Found(items) =>
      match d.user
      case None => Outcome(d, Failure(NotAuthenticatedMessage))
      case Some(user) =>
        var prompts := PromptsBatch(d, selected, genPrompts, insertPrompts);
        if prompts.error.Some? then Outcome(d, Failure(RestorePromptsPrefix + prompts.error.value))
        else
          var favorites := FavoritesBatch(d, selected, user, genPrompts, insertPrompts, genFavorites, insertFavorites);
          if favorites.error.Some? then Outcome(prompts.db, Failure(RestoreFavoritesPrefix + favorites.error.value))
          else
            var deleted := DeleteStep(favorites.db, Trash, IdSet(selected), delete);
            if deleted.error.Some? then Outcome(favorites.db, Failure(RemoveFromTrashPrefix + deleted.error.value))
            else Outcome(deleted.db, Success)
  }

  /** When the store accepts every call and both batches, the selected rows
      leave the trash and the two batches are stored. */
  lemma BulkRestoreMovesRows(d: Db, selected: seq<string>, genPrompts: nat -> string, genFavorites: nat -> string)
    requires Valid(d) && d.user.Some?
    requires var items := SelectIn(d.trash, selected);
      && InsertAll(d.prompts, PromptsToRestore(items), genPrompts, 0).Found?
      && InsertAll(d.favorites, FavoritesToRestore(items, d.user.value), genFavorites, 0).Found?
    ensures var items := SelectIn(d.trash, selected);
      var o := BulkRestoreOutcome(d, selected, Ok, Ok, Ok, Ok, genPrompts, genFavorites);
      && o.result == Success
      && o.db.trash == d.trash - IdSet(selected)
      && o.db.prompts == InsertAll(d.prompts, PromptsToRestore(items), genPrompts, 0).value
      && o.db.favorites == InsertAll(d.favorites, FavoritesToRestore(items, d.user.value), genFavorites, 0).value
  {
    var items, user := SelectIn(d.trash, selected), d.user.value;
    var ps, fs := PromptsToRestore(items), FavoritesToRestore(items, user);
    var mp := InsertAll(d.prompts, ps, genPrompts, 0).value;
    var mf := InsertAll(d.favorites, fs, genFavorites, 0).value;
    var s1 := InsertIfAny(d, Prompts, ps, genPrompts, Ok);
    assert s1 == Step(d.(prompts := mp), None);
    var s2 := InsertIfAny(s1.db, Favorites, fs, genFavorites, Ok);
    assert s2 == Step(s1.db.(favorites := mf), None);
  }

  /** A batch with nothing in it is not sent, so how the store would have
      answered it does not matter. */
  lemma EmptyBatchNotSent(d: Db, selected: seq<string>, fetch: Reply, insertPrompts: Reply, insertFavorites: Reply,
                          delete: Reply, genPrompts: nat -> string, genFavorites: nat -> string)
    requires d.user.Some?
    ensures var items := SelectIn(d.trash, selected);
      PromptsToRestore(items) == [] ==>
        BulkRestoreOutcome(d, selected, fetch, insertPrompts, insertFavorites, delete, genPrompts, genFavorites)
        == BulkRestoreOutcome(d, selected, fetch, Ok, insertFavorites, delete, genPrompts, genFavorites)
    ensures var items := SelectIn(d.trash, selected);
      FavoritesToRestore(items, d.user.value) == [] ==>
        BulkRestoreOutcome(d, selected, fetch, insertPrompts, insertFavorites, delete, genPrompts, genFavorites)
        == BulkRestoreOutcome(d, selected, fetch, insertPrompts, Ok, delete, genPrompts, genFavorites)
  {
  }

  /** What the bulk permanent delete of `selected` does to the store. */
  function BulkDeleteOutcome(d: Db, selected: seq<string>, delete: Reply): (o: Outcome)
    ensures Valid(d) ==> Valid(o.db)
    ensures delete.Ok? ==> o == Outcome(d.(trash := d.trash - IdSet(selected)), Success)
    ensures delete.Err? ==> o == Outcome(d, Failure(DeletePermanentlyPrefix + delete.message))
  {
    var deleted := DeleteStep(d, Trash, IdSet(selected), delete);
    if deleted.error.Some? then Outcome(d, Failure(DeletePermanentlyPrefix + deleted.error.value))
    else Outcome(deleted.db, Success)
  }

  /** What the single-row action does to the store: the same as the
      `restorePrompt` and `deleteTrashPrompt` actions. */
  function ActionOutcome(d: Db, id: string, action: Action, fetch: Reply, insert: Reply,
                         delete: Reply, gen: nat -> string): (o: Outcome)
    ensures Valid(d) ==> Valid(o.db)
    ensures o.db.histories == d.histories && o.db.settings == d.settings && o.db.user == d.user
    ensures o.result.Success? ==> id !in o.db.trash
    ensures o.db.trash != d.trash ==> o.result.Success? && o.db.trash == d.trash - {id}
    ensures action == Delete ==> o.db.prompts == d.prompts && o.db.favorites == d.favorites
  {
    match action
    case Restore => RestoreOutcome(d, id, fetch, insert, delete, gen)
    case Delete => DeleteTrashOutcome(d, id, delete)
  }

  /** What the bulk action does to the store. */
  function BulkActionOutcome(d: Db, selected: seq<string>, action: Action, fetch: Reply, insertPrompts: Reply,
                             insertFavorites: Reply, delete: Reply, genPrompts: nat -> string,
                             genFavorites: nat -> string): (o: Outcome)
    ensures Valid(d) ==> Valid(o.db)
    ensures o.db.histories == d.histories && o.db.settings == d.settings && o.db.user == d.user
    ensures o.result.Success? ==> o.db.trash == d.trash - IdSet(selected)
    ensures o.db.trash != d.trash ==> o.result.Success?
    ensures action == Delete ==> o.db.prompts == d.prompts && o.db.favorites == d.favorites
  {
    match action
    case Restore => BulkRestoreOutcome(d, selected, fetch, insertPrompts, insertFavorites, delete, genPrompts, genFavorites)
    case Delete => BulkDeleteOutcome(d, selected, delete)
  }

  /** The pending single action once it has finished: a success clears it,
      a failure keeps it and alerts with the action's name. */
  function AfterAction(pending: (Option<string>, Option<Action>), action: Action, result: ActionResult)
    : (s: (Option<string>, Option<Action>, Notice))
    ensures result.Success? ==> s == (None, None, Quiet)
    ensures result.Failure? ==>
      s == (pending.0, pending.1, Alert("Failed to " + ActionName(action) + " prompt: " + result.error))
  {
    match result
    case Success => (None, None, Quiet)
    case Failure(message) => (pending.0, pending.1, Alert("Failed to " + ActionName(action) + " prompt: " + message))
  }

  /** The selection, the dialog and the pending bulk action once a bulk
      action has finished: a success empties and closes them all, a failure
      keeps them. */
  function AfterBulk(selection: seq<string>, dialog: bool, pending: Option<Action>, result: ActionResult)
    : (s: (seq<string>, bool, Option<Action>))
    ensures result.Success? ==> s == ([], false, None)
    ensures result.Failure? ==> s == (selection, dialog, pending)
  {
    if result.Success? then ([], false, None) else (selection, dialog, pending)
  }

  /** The toast a finished bulk action shows. */
  function BulkNotice(action: Action, count: nat, result: ActionResult): (n: Notice)
    ensures result.Failure? ==> n == ErrorToast("Failed to " + ActionName(action) + " prompts: " + result.error)
    ensures result.Success? ==> n.Toast?
  {
    match result
    case Failure(message) => ErrorToast("Failed to " + ActionName(action) + " prompts: " + message)
    case Success =>
      Toast(NatToString(count) + (if action == Restore then " prompts restored successfully" else " prompts deleted permanently"))
  }

  class TrashTable {
    var rowSelection: seq<string>
    var actionId: Option<string>
    var actionType: Option<Action>
    var bulkActionType: Option<Action>
    var showBulkActionDialog: bool
    var isProcessing: bool

    constructor ()
      ensures rowSelection == [] && actionId == None && actionType == None
      ensures bulkActionType == None && !showBulkActionDialog && !isProcessing
    {
      rowSelection, actionId, actionType, bulkActionType := [], None, None, None;
      showBulkActionDialog, isProcessing := false, false;
    }

    /** `handleAction`: restores or deletes the row `actionId`; nothing
        happens without an id or an action. */
    method HandleAction(db: Store, fetch: Reply, insert: Reply, delete: Reply, gen: nat -> string)
      returns (notice: Notice)
      requires db.Valid()
      modifies this, db
      ensures db.Valid()
      ensures rowSelection == old(rowSelection) && bulkActionType == old(bulkActionType)
      ensures showBulkActionDialog == old(showBulkActionDialog)
      ensures old(actionId) in {None, Some("")} || old(actionType).None? ==>
        db.State() == old(db.State()) && notice == Quiet
        && actionId == old(actionId) && actionType == old(actionType) && isProcessing == old(isProcessing)
      ensures old(actionId) !in {None, Some("")} && old(actionType).Some? ==>
        var o := ActionOutcome(old(db.State()), old(actionId).value, old(actionType).value, fetch, insert, delete, gen);
        && db.State() == o.db && !isProcessing
        && (actionId, actionType, notice) == AfterAction((old(actionId), old(actionType)), old(actionType).value, o.result)
    {
      if actionId.None? || actionId.value == "" || actionType.None? {
        return Quiet;
      }
      var id, action := actionId.value, actionType.value;
      isProcessing := true;
      var result := RunAction(db, id, action, fetch, insert, delete, gen);
      var after := AfterAction((actionId, actionType), action, result);
      actionId, actionType, notice := after.0, after.1, after.2;
      isProcessing := false;
    }

    /** The store calls of `handleAction`. */
    method RunAction(db: Store, id: string, action: Action, fetch: Reply, insert: Reply, delete: Reply, gen: nat -> string)
      returns (r: ActionResult)
      requires db.Valid()
      modifies db
      ensures db.Valid()
      ensures Outcome(db.State(), r) == ActionOutcome(old(db.State()), id, action, fetch, insert, delete, gen)
    {
      if action == Restore {
        r := RestoreInTable(db, id, fetch, insert, delete, gen);
      } else {
        r := DeleteTrashPrompt(db, id, delete);
      }
    }

    /** The restore branch of `handleAction`, building the prompt row the
        table's way. */
    method RestoreInTable(db: Store, id: string, fetch: Reply, insert: Reply, delete: Reply, gen: nat -> string)
      returns (r: ActionResult)
      requires db.Valid()
      modifies db
      ensures db.Valid()
      ensures Outcome(db.State(), r) == RestoreOutcome(old(db.State()), id, fetch, insert, delete, gen)
    {
      var item := db.Select(Trash, id, fetch);
      if item.Failed? {
        return Failure(FetchTrashPrefix + item.message);
      }
      var d := db.State();
      if d.user.None? {
        return Failure(NotAuthenticatedMessage);
      }
      if IsFavoriteOrigin(item.value) {
        var insertError := db.Insert(Favorites, [RestoredFavorite(item.value, d.user.value)], gen, insert);
        if insertError.Some? {
          return Failure(RestoreFavoritePrefix + insertError.value);
        }
      } else {
        RestorePathsAgree(item.value);
        var insertError := db.Insert(Prompts, [RestoredPromptInTable(item.value)], gen, insert);
        if insertError.Some? {
          return Failure(RestorePromptPrefix + insertError.value);
        }
      }
      var deleteError := db.Delete(Trash, {id}, delete);
      if deleteError.Some? {
        return Failure(RemoveFromTrashPrefix + deleteError.value);
      }
      return Success;
    }

    /** `handleBulkAction`: restores or deletes every selected row; nothing
        happens with an empty selection or no action. A success empties the
        selection and closes the dialog. */
    method HandleBulkAction(db: Store, fetch: Reply, insertPrompts: Reply, insertFavorites: Reply,
                            delete: Reply, genPrompts: nat -> string, genFavorites: nat -> string)
      returns (notice: Notice)
      requires db.Valid()
      modifies this, db
      ensures db.Valid()
      ensures actionId == old(actionId) && actionType == old(actionType)
      ensures old(rowSelection) == [] || old(bulkActionType).None? ==>
        && db.State() == old(db.State()) && notice == Quiet && rowSelection == old(rowSelection)
        && isProcessing == old(isProcessing)
        && bulkActionType == old(bulkActionType) && showBulkActionDialog == old(showBulkActionDialog)
      ensures old(rowSelection) != [] && old(bulkActionType).Some? ==>
        var o := BulkActionOutcome(old(db.State()), old(rowSelection), old(bulkActionType).value, fetch,
                                   insertPrompts, insertFavorites, delete, genPrompts, genFavorites);
        && db.State() == o.db && !isProcessing
        && notice == BulkNotice(old(bulkActionType).value, |old(rowSelection)|, o.result)
        && (rowSelection, showBulkActionDialog, bulkActionType)
           == AfterBulk(old(rowSelection), old(showBulkActionDialog), old(bulkActionType), o.result)
    {
      var selected := rowSelection;
      if |selected| == 0 || bulkActionType.None? {
        return Quiet;
      }
      var action := bulkActionType.value;
      isProcessing := true;
      var result := RunBulk(db, selected, action, fetch, insertPrompts, insertFavorites, delete, genPrompts, genFavorites);
      notice := BulkNotice(action, |selected|, result);
      var after := AfterBulk(rowSelection, showBulkActionDialog, bulkActionType, result);
      rowSelection, showBulkActionDialog, bulkActionType := after.0, after.1, after.2;
      isProcessing := false;
    }

    /** The store calls of `handleBulkAction`. */
    method RunBulk(db: Store, selected: seq<string>, action: Action, fetch: Reply, insertPrompts: Reply,
                   insertFavorites: Reply, delete: Reply, genPrompts: nat -> string, genFavorites: nat -> string)
      returns (r: ActionResult)
      requires db.Valid()
      modifies db
      ensures db.Valid()
      ensures Outcome(db.State(), r) ==
        BulkActionOutcome(old(db.State()), selected, action, fetch, insertPrompts, insertFavorites, delete, genPrompts, genFavorites)
    {
      if action == Restore {
        r := BulkRestore(db, selected, fetch, insertPrompts, insertFavorites, delete, genPrompts, genFavorites);
      } else {
        r := BulkDelete(db, selected, delete);
      }
    }

    /** The delete branch of `handleBulkAction`. */
    method BulkDelete(db: Store, selected: seq<string>, delete: Reply) returns (r: ActionResult)
      requires db.Valid()
      modifies db
      ensures db.Valid()
      ensures Outcome(db.State(), r) == BulkDeleteOutcome(old(db.State()), selected, delete)
    {
      var error := db.Delete(Trash, IdSet(selected), delete);
      if error.Some? {
        return Failure(DeletePermanentlyPrefix + error.value);
      }
      return Success;
    }

    /** The restore branch of `handleBulkAction`. */
    method BulkRestore(db: Store, selected: seq<string>, fetch: Reply, insertPrompts: Reply, insertFavorites: Reply,
                       delete: Reply, genPrompts: nat -> string, genFavorites: nat -> string)
      returns (r: ActionResult)
      requires db.Valid()
      modifies db
      ensures db.Valid()
      ensures Outcome(db.State(), r) ==
        BulkRestoreOutcome(old(db.State()), selected, fetch, insertPrompts, insertFavorites, delete, genPrompts, genFavorites)
    {
      var items := db.SelectIn(Trash, selected, fetch);
      if items.Failed? {
        return Failure(FetchTrashPrefix + items.message);
      }
      var d := db.State();
      if d.user.None? {
        return Failure(NotAuthenticatedMessage);
      }
      var prompts, favorites := PartitionForRestore(items.value, d.user.value);
      if |prompts| > 0 {
        var error := db.Insert(Prompts, prompts, genPrompts, insertPrompts);
        if error.Some? {
          return Failure(RestorePromptsPrefix + error.value);
        }
      }
      if |favorites| > 0 {
        var error := db.Insert(Favorites, favorites, genFavorites, insertFavorites);
        if error.Some? {
          return Failure(RestoreFavoritesPrefix + error.value);
        }
      }
      var error := db.Delete(Trash, IdSet(selected), delete);
      if error.Some? {
        return Failure(RemoveFromTrashPrefix + error.value);
      }
      return Success;
    }
  }
}
