/** The favorite button (components/prompts/add-to-favorite-button.tsx): it
    copies a prompt into `favorite_prompts` for the signed-in user, and
    steps through idle, loading and success while doing so. */
module AddToFavoriteButton {
  import opened Options
  import opened Rows
  import opened RecordStore
  import opened Ui

  const AuthRequiredMessage := "사용자 인증이 필요합니다."
  const FavoriteErrorPrefix := "즐겨찾기 추가 중 오류가 발생했습니다: "

  /** `ButtonState` of the component. */
  datatype ButtonState = Idle | Loading | Succeeded

  /** The columns the payload does not take over from the prompt as they are. */
  const PayloadOverrides: set<Column> := {Id, CreatedAt, UserId, Details}

  /** `{ ...rest, user_id, details: rest.details ?? "" }`, where `rest` is the
      prompt without `id`, `created_at` and `user_id`. */
  function FavoritePayload(p: Row, user: string): (r: Row)
    ensures Id !in r && CreatedAt !in r
    ensures Lookup(r, UserId) == Some(Str(user))
    ensures Lookup(r, Details) == Some(Coalesce(Lookup(p, Details), Str("")))
    ensures forall k :: k !in PayloadOverrides ==> Lookup(r, k) == Lookup(p, k)
  {
    var rest := p - {Id, CreatedAt, UserId};
    rest[UserId := Str(user)][Details := Coalesce(Lookup(rest, Details), Str(""))]
  }

  /** What one click leaves behind. */
  datatype Click = Click(db: Db, state: ButtonState, notice: Notice)

  /** What `handleAddToFavorite` does from state `state`: nothing while
      loading; otherwise the insert, ending in success or back in idle. */
  function AddFavoriteOutcome(d: Db, state: ButtonState, prompt: Row, gen: nat -> string, insert: Reply): (c: Click)
    ensures Valid(d) ==> Valid(c.db)
    ensures state == Loading ==> c == Click(d, Loading, Quiet)
    ensures state != Loading && d.user.None? ==> c == Click(d, Idle, Alert(FavoriteErrorPrefix + AuthRequiredMessage))
    ensures c.state != Succeeded ==> c.db == d
    ensures c.db.prompts == d.prompts && c.db.histories == d.histories && c.db.trash == d.trash
    ensures c.db.settings == d.settings && c.db.user == d.user
    ensures forall k :: k in d.favorites ==> k in c.db.favorites && c.db.favorites[k] == d.favorites[k]
  {
    if state == Loading then Click(d, Loading, Quiet)
    else match d.user
      case None => Click(d, Idle, Alert(FavoriteErrorPrefix + AuthRequiredMessage))
      case Some(user) =>
        var payload := FavoritePayload(prompt, user);
        InsertAllKeeps(d.favorites, [payload], gen, 0);
        var inserted := InsertStep(d, Favorites, [payload], gen, insert);
        match inserted.error
        case Some(message) => Click(d, Idle, Alert(FavoriteErrorPrefix + message))
        case None => Click(inserted.db, Succeeded, Quiet)
  }

  /** The button shows success exactly when the payload was stored, under
      the id the store generates. */
  lemma SuccessMeansStored(d: Db, state: ButtonState, prompt: Row, gen: nat -> string, insert: Reply)
    requires gen(0) !in d.favorites
    ensures var c := AddFavoriteOutcome(d, state, prompt, gen, insert);
      c.state == Succeeded <==> state != Loading && d.user.Some? && insert.Ok?
    ensures var c := AddFavoriteOutcome(d, state, prompt, gen, insert);
      c.state == Succeeded ==>
        c.db.favorites == d.favorites[gen(0) := FavoritePayload(prompt, d.user.value)[Id := Str(gen(0))]]
  {
    if state != Loading && d.user.Some? {
      InsertOne(d.favorites, FavoritePayload(prompt, d.user.value), gen);
    }
  }

  class AddToFavoriteButton {
    const prompt: Row
    var state: ButtonState

    constructor (prompt: Row)
      ensures this.prompt == prompt && state == Idle
    {
      this.prompt := prompt;
      state := Idle;
    }

    /** `handleAddToFavorite`. */
    method HandleAddToFavorite(db: Store, gen: nat -> string, insert: Reply) returns (notice: Notice)
      requires db.Valid()
      modifies this, db
      ensures db.Valid()
      ensures Click(db.State(), state, notice) == AddFavoriteOutcome(old(db.State()), old(state), prompt, gen, insert)
    {
      if state == Loading {
        return Quiet;
      }
      state := Loading;
      var d := db.State();
      if d.user.None? {
        state := Idle;
        return Alert(FavoriteErrorPrefix + AuthRequiredMessage);
      }
      var error := db.Insert(Favorites, [FavoritePayload(prompt, d.user.value)], gen, insert);
      if error.Some? {
        state := Idle;
        return Alert(FavoriteErrorPrefix + error.value);
      }
      state := Succeeded;
      notice := Quiet;
    }

    /** The timer started on success puts the button back to idle. */
    method ResetTimerFires()
      modifies this
      ensures state == Idle
    {
      state := Idle;
    }
  }
}
