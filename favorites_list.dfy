/** The favorites page list (app/favorites/favorites-list.tsx): deleting a
    favorite moves it into the trash, then drops it from the local list. */
module FavoritesList {
  import opened Options
  import opened Rows
  import opened RecordStore
  import opened Ui

  const FetchFavoritePrefix := "Failed to fetch favorite: "
  const NotAuthenticatedMessage := "User not authenticated"
  const MoveToTrashPrefix := "Failed to move to trash: "
  const DeleteFavoritePrefix := "Failed to delete favorite: "

  /** The twelve content columns and `created_at`, the allow-list the trash
      entry copies from the favorite. */
  const TrashCopiedKeys: set<Column> :=
    {CoreTheme, Version, Hair, Pose, Outfit, Atmosphere, Gaze, Makeup,
     Background, FinalPrompt, AspectRatio, Details, CreatedAt}

  /** Every column a trash entry made from a favorite can have. */
  const TrashEntryKeys: set<Column> := TrashCopiedKeys + {UserId, ItemUid, OriginType}

  /** `insertData`: the listed columns of the favorite (a column the row
      lacks stays undefined and is not sent), the acting user, the
      favorite's own id as `item_uid`, and the origin; never an `id`. */
  function TrashEntryFor(favorite: Row, user: string): (e: Row)
    ensures Id !in e
    ensures Lookup(e, ItemUid) == Lookup(favorite, Id)
  {
    var copied := map k | k in TrashCopiedKeys && k in favorite :: favorite[k];
    var owned := copied[UserId := Str(user)];
    var withUid := if Id in favorite then owned[ItemUid := favorite[Id]] else owned;
    withUid[OriginType := Str(FavoriteOrigin)]
  }

  /** The trash entry holds exactly the allow-listed columns of the
      favorite, the acting user and the origin "FAVORITE". */
  lemma TrashEntryColumns(favorite: Row, user: string)
    ensures var e := TrashEntryFor(favorite, user);
      && e.Keys <= TrashEntryKeys
      && Lookup(e, OriginType) == Some(Str(FavoriteOrigin))
      && Lookup(e, UserId) == Some(Str(user))
      && (forall k :: k in TrashCopiedKeys ==> Lookup(e, k) == Lookup(favorite, k))
  {
    var e := TrashEntryFor(favorite, user);
    forall k | k in TrashCopiedKeys ensures Lookup(e, k) == Lookup(favorite, k) {
      assert k != UserId && k != ItemUid && k != OriginType;
    }
  }

  /** `prev.filter((p) => p.id !== favoriteId)`. */
  function RemoveById(list: seq<Row>, id: string): (r: seq<Row>)
    ensures |r| <= |list|
    ensures forall x :: x in r <==> x in list && Lookup(x, Id) != Some(Str(id))
    decreases |list|
  {
    if list == [] then []
    else
      var init, last := list[..|list| - 1], list[|list| - 1];
      assert forall x :: x in list <==> x in init || x == last by {
        assert list == init + [last];
      }
      RemoveById(init, id) + (if Lookup(last, Id) != Some(Str(id)) then [last] else [])
  }

  /** The filter works piece by piece, so the entries it keeps stay in order. */
  lemma {:induction false} RemoveByIdAppend(a: seq<Row>, b: seq<Row>, id: string)
    ensures RemoveById(a + b, id) == RemoveById(a, id) + RemoveById(b, id)
    decreases |b|
  {
    if b != [] {
      var init, last := b[..|b| - 1], b[|b| - 1];
      assert (a + b)[..|a + b| - 1] == a + init;
      RemoveByIdAppend(a, init, id);
    } else {
      assert a + b == a;
    }
  }

  /** An entry with another id is kept, an entry with this id is dropped. */
  lemma RemoveByIdOne(x: Row, id: string)
    ensures RemoveById([x], id) == if Lookup(x, Id) == Some(Str(id)) then [] else [x]
  {
    assert [x][..0] == [];
  }

  /** The insert of the trash entry for `favorite`. */
  function TrashInsert(d: Db, favorite: Row, user: string, gen: nat -> string, insert: Reply): Step
  {
    InsertStep(d, Trash, [TrashEntryFor(favorite, user)], gen, insert)
  }

  /** What `handleDelete(favoriteId)` does to the store, and the alert it
      raises (`None` on success). The favorite is deleted only once its
      trash entry is stored; a failed insert leaves the store as it was. */
  function DeleteFavoriteOutcome(d: Db, favoriteId: string, fetch: Reply,
                                 insert: Reply, delete: Reply, gen: nat -> string): (s: Step)
    ensures Valid(d) ==> Valid(s.db)
    ensures s.db.prompts == d.prompts && s.db.histories == d.histories
    ensures s.db.settings == d.settings && s.db.user == d.user
    ensures fetch.Err? || favoriteId !in d.favorites || d.user.None? ==> s.db == d && s.error.Some?
    ensures s.db.favorites == d.favorites || (s.error.None? && s.db.favorites == d.favorites - {favoriteId})
    ensures s.db.favorites != d.favorites ==> s.db.trash != d.trash
    ensures fetch.Ok? && favoriteId in d.favorites && d.user.Some?
            && TrashInsert(d, d.favorites[favoriteId], d.user.value, gen, insert).error.Some? ==>
      s.db == d && s.error.Some?
    ensures s.db.trash != d.trash ==>
      && fetch.Ok? && favoriteId in d.favorites && d.user.Some?
      && TrashInsert(d, d.favorites[favoriteId], d.user.value, gen, insert).error.None?
      && s.db.trash == TrashInsert(d, d.favorites[favoriteId], d.user.value, gen, insert).db.trash
  {
    match SelectOne(d, Favorites, favoriteId, fetch)
    case Failed(message) => Step(d, Some(FetchFavoritePrefix + message))
    case Found(favorite) =>
      match d.user
      case None => Step(d, Some(NotAuthenticatedMessage))
      case Some(user) =>
        var inserted := TrashInsert(d, favorite, user, gen, insert);
        InsertAllKeeps(d.trash, [TrashEntryFor(favorite, user)], gen, 0);
        match inserted.error
        case Some(message) => Step(d, Some(MoveToTrashPrefix + message))
        case None =>
          var deleted := DeleteStep(inserted.db, Favorites, {favoriteId}, delete);
          match deleted.error
          case Some(message) => Step(inserted.db, Some(DeleteFavoritePrefix + message))
          case None => deleted
  }

  /** When every call goes through, the favorite leaves `favorite_prompts`
      and its trash entry is stored under the id the store generates. */
  lemma DeleteMovesToTrash(d: Db, favoriteId: string, gen: nat -> string)
    requires Valid(d) && favoriteId in d.favorites && d.user.Some? && gen(0) !in d.trash
    ensures var s := DeleteFavoriteOutcome(d, favoriteId, Ok, Ok, Ok, gen);
      && s.error.None?
      && s.db.favorites == d.favorites - {favoriteId}
      && s.db.trash == d.trash[gen(0) := TrashEntryFor(d.favorites[favoriteId], d.user.value)[Id := Str(gen(0))]]
      && Lookup(s.db.trash[gen(0)], ItemUid) == Some(Str(favoriteId))
  {
    var favorite, user := d.favorites[favoriteId], d.user.value;
    var entry := TrashEntryFor(favorite, user);
    InsertFresh(d, Trash, entry, gen);
    assert Lookup(entry[Id := Str(gen(0))], ItemUid) == Lookup(favorite, Id);
  }

  class FavoritesList {
    var prompts: seq<Row>

    constructor (initialPrompts: seq<Row>)
      ensures prompts == initialPrompts
    {
      prompts := initialPrompts;
    }

    /** `handleDelete(favoriteId)`: the local list loses the entry only when
        the store calls all went through. */
    method HandleDelete(db: Store, favoriteId: string, fetch: Reply, insert: Reply,
                        delete: Reply, gen: nat -> string) returns (notice: Notice)
      requires db.Valid()
      modifies this, db
      ensures db.Valid()
      ensures var s := DeleteFavoriteOutcome(old(db.State()), favoriteId, fetch, insert, delete, gen);
        && db.State() == s.db
        && prompts == (if s.error.None? then RemoveById(old(prompts), favoriteId) else old(prompts))
        && notice == (if s.error.Some? then Alert(s.error.value) else Quiet)
    {
      var favorite := db.Select(Favorites, favoriteId, fetch);
      if favorite.Failed? {
        return Alert(FetchFavoritePrefix + favorite.message);
      }
      var d := db.State();
      if d.user.None? {
        return Alert(NotAuthenticatedMessage);
      }
      var insertError := db.Insert(Trash, [TrashEntryFor(favorite.value, d.user.value)], gen, insert);
      if insertError.Some? {
        return Alert(MoveToTrashPrefix + insertError.value);
      }
      var deleteError := db.Delete(Favorites, {favoriteId}, delete);
      if deleteError.Some? {
        return Alert(DeleteFavoritePrefix + deleteError.value);
      }
      prompts := RemoveById(prompts, favoriteId);
      notice := Quiet;
    }
  }
}
