/** The trash server actions (app/actions/trash.ts): restoring a trash row
    into the table it came from, and deleting it for good. Both report
    failures as a result value and never throw. */
module TrashActions {
  import opened Options
  import opened Rows
  import opened RecordStore
  import opened FavoritesList

  const FetchTrashPrefix := "Failed to fetch from trash: "
  const NotAuthenticatedMessage := "User not authenticated"
  const RestoreFavoritePrefix := "Failed to restore favorite: "
  const RestorePromptPrefix := "Failed to restore prompt: "
  const RemoveFromTrashPrefix := "Failed to remove from trash: "
  const DeletePermanentlyPrefix := "Failed to delete permanently: "

  /** The bookkeeping columns `stripTrashMetadata` deletes. */
  const TrashMetadataKeys: set<Column> :=
    {Id, DeletedAt, IsFavorite, PromptId, FavoriteId, FavoriteStatus, FavoriteSnapshotCreatedAt}

  /** `stripTrashMetadata(item)`: a copy without the bookkeeping columns. */
  function StripTrashMetadata(item: Row): (r: Row)
    ensures forall k :: k in r <==> k in item && k !in TrashMetadataKeys
    ensures forall k :: k in r ==> r[k] == item[k]
  {
    item - TrashMetadataKeys
  }

  /** Stripping a stripped row changes nothing. */
  lemma StripIdempotent(item: Row)
    ensures StripTrashMetadata(StripTrashMetadata(item)) == StripTrashMetadata(item)
  {
  }

  /** `const { origin_type, item_uid, ...trashRest } = trashItem` followed by
      the strip. */
  function RestoreData(item: Row): (r: Row)
    ensures forall k :: k in r <==> k in item && k !in TrashMetadataKeys && k != OriginType && k != ItemUid
    ensures forall k :: k in r ==> r[k] == item[k]
  {
    StripTrashMetadata(item - {OriginType, ItemUid})
  }

  predicate IsFavoriteOrigin(item: Row)
  {
    Lookup(item, OriginType) == Some(Str(FavoriteOrigin))
  }

  /** The columns a favorite restored from the trash does not take over
      from the trash row. */
  const FavoriteRestoreOverrides: set<Column> := TrashMetadataKeys + {OriginType, ItemUid, UserId}

  /** `{ ...promptData, user_id: user.id, item_uid: null }`. */
  function RestoredFavorite(item: Row, user: string): (r: Row)
    ensures Id !in r
    ensures Lookup(r, UserId) == Some(Str(user)) && Lookup(r, ItemUid) == Some(Null)
    ensures forall k :: k in TrashMetadataKeys + {OriginType} ==> k !in r
    ensures forall k :: k !in FavoriteRestoreOverrides ==> Lookup(r, k) == Lookup(item, k)
  {
    RestoreData(item)[UserId := Str(user)][ItemUid := Null]
  }

  /** `{ ...promptData, id: item_uid || promptData.id }`. The stripped data
      has no `id`, so with a falsy `item_uid` the id is undefined, is not
      sent, and the store generates one. */
  function RestoredPrompt(item: Row): (r: Row)
    ensures Truthy(Lookup(item, ItemUid)) ==> Lookup(r, Id) == Lookup(item, ItemUid)
    ensures !Truthy(Lookup(item, ItemUid)) ==> Id !in r
    ensures forall k :: k in TrashMetadataKeys + {OriginType, ItemUid} && k != Id ==> k !in r
    ensures forall k :: k !in TrashMetadataKeys + {OriginType, ItemUid} ==> Lookup(r, k) == Lookup(item, k)
  {
    var promptData := RestoreData(item);
    var id := if Truthy(Lookup(item, ItemUid)) then Lookup(item, ItemUid) else Lookup(promptData, Id);
    match id
    case Some(v) => promptData[Id := v]
    case None => promptData
  }

  /** The table a trash row goes back to. */
  function RestoreTarget(item: Row): Table
  {
    if IsFavoriteOrigin(item) then Favorites else Prompts
  }

  /** The row written there. */
  function RestoredRow(item: Row, user: string): Row
  {
    if IsFavoriteOrigin(item) then RestoredFavorite(item, user) else RestoredPrompt(item)
  }

  /** The insert of the restored row into the table its origin names. */
  function RestoreInsert(d: Db, item: Row, user: string, gen: nat -> string, insert: Reply): Step
  {
    InsertStep(d, RestoreTarget(item), [RestoredRow(item, user)], gen, insert)
  }

  /** What `restorePrompt(id)` does to the store and returns. The trash row
      is deleted only once the restored row has been stored, so a failed
      insert leaves the store as it was. */
  function RestoreOutcome(d: Db, id: string, fetch: Reply, insert: Reply, delete: Reply, gen: nat -> string): (o: Outcome)
    ensures Valid(d) ==> Valid(o.db)
    ensures fetch.Err? || id !in d.trash || d.user.None? ==> o.db == d && o.result.Failure?
    ensures o.db.histories == d.histories && o.db.settings == d.settings && o.db.user == d.user
    ensures o.result.Success? ==> id !in o.db.trash
    ensures o.db.trash != d.trash ==> o.result.Success? && o.db.trash == d.trash - {id}
    ensures o.result.Success? ==>
      && fetch.Ok? && id in d.trash && d.user.Some? && delete.Ok?
      && RestoreInsert(d, d.trash[id], d.user.value, gen, insert).error.None?
    ensures fetch.Ok? && id in d.trash && d.user.Some?
            && RestoreInsert(d, d.trash[id], d.user.value, gen, insert).error.Some? ==>
      o.db == d && o.result.Failure?
  {
    match SelectOne(d, Trash, id, fetch)
    case Failed(message) => Outcome(d, Failure(FetchTrashPrefix + message))
    case Found(item) =>
      match d.user
      case None => Outcome(d, Failure(NotAuthenticatedMessage))
      case Some(user) =>
        var inserted := RestoreInsert(d, item, user, gen, insert);
        match inserted.error
        case Some(message) =>
          Outcome(d, Failure((if IsFavoriteOrigin(item) then RestoreFavoritePrefix else RestorePromptPrefix) + message))
        case None =>
          var deleted := DeleteStep(inserted.db, Trash, {id}, delete);
          match deleted.error
          case Some(message) => Outcome(inserted.db, Failure(RemoveFromTrashPrefix + message))
          case None => Outcome(deleted.db, Success)
  }

  /** A favorite moved to the trash and restored comes back with every
      column the trash entry copied, owned by the restoring user, with a
      null `item_uid` and no id of its own. */
  lemma FavoriteTrashRoundTrip(favorite: Row, mover: string, trashId: string, restorer: string)
    ensures var item := TrashEntryFor(favorite, mover)[Id := Str(trashId)];
      var back := RestoredFavorite(item, restorer);
      && IsFavoriteOrigin(item)
      && RestoreTarget(item) == Favorites
      && (forall k :: k in TrashCopiedKeys ==> Lookup(back, k) == Lookup(favorite, k))
      && Lookup(back, UserId) == Some(Str(restorer))
      && Lookup(back, ItemUid) == Some(Null)
      && Id !in back
  {
    var entry := TrashEntryFor(favorite, mover);
    var item := entry[Id := Str(trashId)];
    TrashEntryColumns(favorite, mover);
    assert Lookup(item, OriginType) == Lookup(entry, OriginType);
    forall k | k in TrashCopiedKeys ensures Lookup(RestoredFavorite(item, restorer), k) == Lookup(favorite, k) {
      CopiedNotOverridden(k);
      assert Lookup(item, k) == Lookup(entry, k);
    }
  }

  lemma CopiedNotOverridden(k: Column)
    requires k in TrashCopiedKeys
    ensures k != Id && k !in FavoriteRestoreOverrides
  {
  }

  /** When every call goes through, the trash row leaves the trash and the
      restored row is stored, under `item_uid` or a generated id, in the
      table its origin names; nothing else changes. */
  lemma RestoreMovesRow(d: Db, id: string, gen: nat -> string)
    requires Valid(d) && id in d.trash && d.user.Some?
    requires var row := RestoredRow(d.trash[id], d.user.value);
      InsertKey(row, gen(0)).Some? && InsertKey(row, gen(0)).value !in RowsOf(d, RestoreTarget(d.trash[id]))
    ensures var item, user := d.trash[id], d.user.value;
      var t, row := RestoreTarget(item), RestoredRow(item, user);
      var k := InsertKey(row, gen(0)).value;
      var o := RestoreOutcome(d, id, Ok, Ok, Ok, gen);
      && o.result == Success
      && o.db.trash == d.trash - {id}
      && RowsOf(o.db, t) == RowsOf(d, t)[k := row[Id := Str(k)]]
      && (t == Favorites ==> o.db.prompts == d.prompts)
      && (t == Prompts ==> o.db.favorites == d.favorites)
  {
    var item, user := d.trash[id], d.user.value;
    var t := RestoreTarget(item);
    InsertOne(RowsOf(d, t), RestoredRow(item, user), gen);
  }

  /** `restorePrompt(id)`. */
  method RestorePrompt(db: Store, id: string, fetch: Reply, insert: Reply, delete: Reply, gen: nat -> string)
    returns (r: ActionResult)
    requires db.Valid()
    modifies db
    ensures db.Valid()
    ensures Outcome(db.State(), r) == RestoreOutcome(old(db.State()), id, fetch, insert, delete, gen)
  {
    var item := db.Select(Trash, id, fetch);
    if item.Failed? {
      return Failure(FetchTrashPrefix + item.message);
    }
    var d := db.State();
    if d.user.None? {
      return Failure(NotAuthenticatedMessage);
    }
    var user := d.user.value;
    if IsFavoriteOrigin(item.value) {
      var insertError := db.Insert(Favorites, [RestoredFavorite(item.value, user)], gen, insert);
      if insertError.Some? {
        return Failure(RestoreFavoritePrefix + insertError.value);
      }
    } else {
      var insertError := db.Insert(Prompts, [RestoredPrompt(item.value)], gen, insert);
      if insertError.Some? {
        return Failure(RestorePromptPrefix + insertError.value);
      }
    }
    var deleteError := db.Delete(Trash, {id}, delete);
    if deleteError.Some? {
      return Failure(RemoveFromTrashPrefix + deleteError.value);
    }
    return Success;
  }

  /** What `deleteTrashPrompt(id)` does to the store and returns. */
  function DeleteTrashOutcome(d: Db, id: string, delete: Reply): (o: Outcome)
    ensures Valid(d) ==> Valid(o.db)
    ensures delete.Ok? ==> o == Outcome(d.(trash := d.trash - {id}), Success)
    ensures delete.Err? ==> o == Outcome(d, Failure(DeletePermanentlyPrefix + delete.message))
  {
    var deleted := DeleteStep(d, Trash, {id}, delete);
    match deleted.error
    case Some(message) => Outcome(d, Failure(DeletePermanentlyPrefix + message))
    case None => Outcome(deleted.db, Success)
  }

  /** `deleteTrashPrompt(id)`. */
  method DeleteTrashPrompt(db: Store, id: string, delete: Reply) returns (r: ActionResult)
    requires db.Valid()
    modifies db
    ensures db.Valid()
    ensures Outcome(db.State(), r) == DeleteTrashOutcome(old(db.State()), id, delete)
  {
    var error := db.Delete(Trash, {id}, delete);
    if error.Some? {
      return Failure(DeletePermanentlyPrefix + error.value);
    }
    return Success;
  }
}
