/** The dashboard's server page (app/prompts.tsx): the fetched prompts,
    each marked with whether the signed-in user has made it a favorite. */
module PromptsPage {
  import opened Options
  import opened Rows
  import opened RecordStore

  const FetchErrorPrefix := "프롬프트를 불러오는 중 오류가 발생했습니다: "

  /** `new Set(favorites?.map((f) => f.prompt_id))` for
      `.from("favorite_prompts").select("prompt_id").eq("user_id", user)`:
      empty when that read fails. A favorite without a `prompt_id`
      contributes `undefined`. */
  function FavoriteIds(d: Db, user: string, reply: Reply): (ids: set<Option<Value>>)
    ensures reply.Err? ==> ids == {}
  {
    if reply.Err? then {}
    else set f | f in d.favorites.Values && Lookup(f, UserId) == Some(Str(user)) :: Lookup(f, PromptId)
  }

  /** `rows.map((p) => ({ ...p, is_favorite: favoriteIds.has(p.id) }))`. */
  function Annotate(rows: seq<Row>, ids: set<Option<Value>>): (r: seq<Row>)
    ensures |r| == |rows|
    ensures forall i :: 0 <= i < |r| ==> Lookup(r[i], IsFavorite) == Some(Bool(Lookup(rows[i], Id) in ids))
  {
    seq(|rows|, i requires 0 <= i < |rows| => rows[i][IsFavorite := Bool(Lookup(rows[i], Id) in ids)])
  }

  /** Marking keeps every other column of every row, in the same order. */
  lemma AnnotateKeepsColumns(rows: seq<Row>, ids: set<Option<Value>>, i: int, k: Column)
    requires 0 <= i < |rows| && k != IsFavorite
    ensures Lookup(Annotate(rows, ids)[i], k) == Lookup(rows[i], k)
  {
  }

  datatype PromptsView = ErrorView(message: string) | TableView(rows: seq<Row>)

  /** The page for the fetched prompts `fetched`, the favorites read
      answered by `favorites`. */
  function PromptsViewOf(d: Db, fetched: Fetch<seq<Row>>, favorites: Reply): (v: PromptsView)
    ensures fetched.Failed? <==> v.ErrorView?
    ensures fetched.Failed? ==> v.message == FetchErrorPrefix + fetched.message
    ensures fetched.Found? && d.user.None? ==> v == TableView(fetched.value)
    ensures fetched.Found? ==> |v.rows| == |fetched.value|
  {
    match fetched
    case Failed(message) => ErrorView(FetchErrorPrefix + message)
    case Found(rows) =>
      match d.user
      case None => TableView(rows)
      case Some(user) => TableView(Annotate(rows, FavoriteIds(d, user, favorites)))
  }

  /** With a user signed in and the favorites read answered, a row is marked
      as a favorite exactly when one of that user's favorites names its id
      as `prompt_id`. */
  lemma FavoriteIffListed(d: Db, rows: seq<Row>, i: int)
    requires d.user.Some? && 0 <= i < |rows|
    ensures var v := PromptsViewOf(d, Found(rows), Ok);
      Lookup(v.rows[i], IsFavorite) == Some(Bool(
        exists f :: f in d.favorites.Values && Lookup(f, UserId) == Some(Str(d.user.value))
                     && Lookup(f, PromptId) == Lookup(rows[i], Id)))
  {
    var ids := FavoriteIds(d, d.user.value, Ok);
    var listed := exists f :: f in d.favorites.Values && Lookup(f, UserId) == Some(Str(d.user.value))
                             && Lookup(f, PromptId) == Lookup(rows[i], Id);
    if listed {
      var f :| f in d.favorites.Values && Lookup(f, UserId) == Some(Str(d.user.value))
               && Lookup(f, PromptId) == Lookup(rows[i], Id);
      assert Lookup(f, PromptId) in ids;
    }
  }
}
