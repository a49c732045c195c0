/** The hosted record store every component talks to, as maps. Each call
    the code makes (`select ... single`, `select ... in`, `insert`, `update`,
    `delete`, `upsert`) is a step that either succeeds or reports an error;
    whether the service answers a call with an error is an input (`Reply`),
    and so are the ids the store generates for rows inserted without one.
    A call that reports an error changes nothing. */
module RecordStore {
  import opened Options
  import opened Rows

  /** How the service answers one call. */
  datatype Reply = Ok | Err(message: string)

  /** The result of a read: the data, or the error the service reported. */
  datatype Fetch<T> = Found(value: T) | Failed(message: string)

  datatype Table = Prompts | Favorites | Trash

  /** The tables: `prompts`, `prompt_histories` (append-only), `favorite_prompts`,
      `trash`, `settings`, and the signed-in user, if any. */
  datatype Db = Db(
    prompts: map<string, Row>,
    histories: seq<Row>,
    favorites: map<string, Row>,
    trash: map<string, Row>,
    settings: map<string, string>,
    user: Option<string>)

  /** `{ success, error? }`, the result of a server action. */
  datatype ActionResult = Success | Failure(error: string)

  /** What a whole operation leaves behind. */
  datatype Outcome = Outcome(db: Db, result: ActionResult)

  /** The store after one call and the error it reported, if any. */
  datatype Step = Step(db: Db, error: Option<string>)

  /** Messages of the errors the store raises by itself. */
  const NoRowMessage := "no row matches the filter"
  const DuplicateIdMessage := "duplicate key value violates the primary key"
  const InvalidIdMessage := "the id is not a string"

  function RowsOf(d: Db, t: Table): map<string, Row>
  {
    match t
    case Prompts => d.prompts
    case Favorites => d.favorites
    case Trash => d.trash
  }

  function WithRows(d: Db, t: Table, m: map<string, Row>): (e: Db)
    ensures RowsOf(e, t) == m
    ensures forall u :: u != t ==> RowsOf(e, u) == RowsOf(d, u)
    ensures e.histories == d.histories && e.settings == d.settings && e.user == d.user
  {
    match t
    case Prompts => d.(prompts := m)
    case Favorites => d.(favorites := m)
    case Trash => d.(trash := m)
  }

  /** Every row carries the key it is stored under as its `id` column. */
  predicate KeyedById(m: map<string, Row>)
  {
    forall k :: k in m ==> Id in m[k] && m[k][Id] == Str(k)
  }

  predicate Valid(d: Db)
  {
    KeyedById(d.prompts) && KeyedById(d.favorites) && KeyedById(d.trash)
  }

  /** `.select("*").eq("id", id).single()`: fails when no row has that id. */
  function SelectOne(d: Db, t: Table, id: string, reply: Reply): (r: Fetch<Row>)
  {
    if reply.Err? then Failed(reply.message)
    else if id !in RowsOf(d, t) then Failed(NoRowMessage)
    else Found(RowsOf(d, t)[id])
  }

  /** The rows of `m` whose ids are listed, each once, in the order of `ids`. */
  function SelectIn(m: map<string, Row>, ids: seq<string>): (r: seq<Row>)
    ensures forall x :: x in r ==> x in m.Values
    decreases |ids|
  {
    if ids == [] then []
    else
      var last, init := ids[|ids| - 1], ids[..|ids| - 1];
      SelectIn(m, init) + (if last in m && last !in init then [m[last]] else [])
  }

  /** `.select("*").in("id", ids)`. */
  function SelectMany(d: Db, t: Table, ids: seq<string>, reply: Reply): Fetch<seq<Row>>
  {
    if reply.Err? then Failed(reply.message) else Found(SelectIn(RowsOf(d, t), ids))
  }

  /** The key an inserted row is stored under: its own `id`, or else the id
      the store generates. */
  function InsertKey(row: Row, generated: string): Option<string>
  {
    if Id in row then (if row[Id].Str? then Some(row[Id].s) else None)
    else Some(generated)
  }

  /** A batch `insert`: every row or none. Row `i` of the batch gets the
      generated id `gen(offset + i)` when it has no `id` of its own. */
  function InsertAll(m: map<string, Row>, rows: seq<Row>, gen: nat -> string, offset: nat): Fetch<map<string, Row>>
    decreases |rows|
  {
    if rows == [] then Found(m)
    else match InsertKey(rows[0], gen(offset))
      case None => Failed(InvalidIdMessage)
      case Some(k) =>
        if k in m then Failed(DuplicateIdMessage)
        else InsertAll(m[k := rows[0][Id := Str(k)]], rows[1..], gen, offset + 1)
  }

  /** A batch insert keeps every row already there, adds one row per
      inserted row, and stores each under its own id. */
  lemma {:induction false} InsertAllKeeps(m: map<string, Row>, rows: seq<Row>, gen: nat -> string, offset: nat)
    ensures var r := InsertAll(m, rows, gen, offset);
      r.Found? ==>
        && m.Keys <= r.value.Keys && (forall k :: k in m ==> r.value[k] == m[k])
        && (KeyedById(m) ==> KeyedById(r.value))
        && |r.value| == |m| + |rows|
    decreases |rows|
  {
    if rows != [] {
      match InsertKey(rows[0], gen(offset))
      case None =>
      case Some(k) =>
        if k !in m {
          var m' := m[k := rows[0][Id := Str(k)]];
          assert m'.Keys == m.Keys + {k};
          if KeyedById(m) { KeyedByIdInsert(m, k, rows[0]); }
          InsertAllKeeps(m', rows[1..], gen, offset + 1);
        }
    }
  }

  lemma KeyedByIdInsert(m: map<string, Row>, k: string, row: Row)
    requires KeyedById(m)
    ensures KeyedById(m[k := row[Id := Str(k)]])
  {
  }

  /** Inserting one row stores it, with its id, under a key not used before. */
  lemma InsertOne(m: map<string, Row>, row: Row, gen: nat -> string)
    ensures InsertAll(m, [row], gen, 0) ==
      match InsertKey(row, gen(0))
      case None => Failed(InvalidIdMessage)
      case Some(k) => if k in m then Failed(DuplicateIdMessage) else Found(m[k := row[Id := Str(k)]])
  {
    var r := InsertAll(m, [row], gen, 0);
    match InsertKey(row, gen(0))
    case None =>
    case Some(k) =>
      if k !in m {
        assert [row][1..] == [];
      }
  }

  /** An accepted insert of one row without an id stores it under the
      generated id and changes nothing else. */
  lemma InsertFresh(d: Db, t: Table, row: Row, gen: nat -> string)
    requires Id !in row && gen(0) !in RowsOf(d, t)
    ensures InsertStep(d, t, [row], gen, Ok) == Step(WithRows(d, t, RowsOf(d, t)[gen(0) := row[Id := Str(gen(0))]]), None)
  {
    InsertOne(RowsOf(d, t), row, gen);
  }

  function InsertStep(d: Db, t: Table, rows: seq<Row>, gen: nat -> string, reply: Reply): (s: Step)
    ensures Valid(d) ==> Valid(s.db)
    ensures s.error.Some? ==> s.db == d
    ensures s.db.histories == d.histories && s.db.settings == d.settings && s.db.user == d.user
    ensures forall u :: u != t ==> RowsOf(s.db, u) == RowsOf(d, u)
  {
    InsertAllKeeps(RowsOf(d, t), rows, gen, 0);
    if reply.Err? then Step(d, Some(reply.message))
    else match InsertAll(RowsOf(d, t), rows, gen, 0)
      case Failed(msg) => Step(d, Some(msg))
      case Found(m) => Step(WithRows(d, t, m), None)
  }

  /** An insert into `prompt_histories`, which nothing reads back by key. */
  function InsertHistoryStep(d: Db, row: Row, reply: Reply): (s: Step)
  {
    if reply.Err? then Step(d, Some(reply.message))
    else Step(d.(histories := d.histories + [row]), None)
  }

  /** `.from("prompts").update(patch).eq("id", id)`: merges the patch into the
      row with that id; no row matching is not an error. */
  function UpdateStep(d: Db, id: string, patch: Row, reply: Reply): (s: Step)
    requires Id !in patch
    ensures Valid(d) ==> Valid(s.db)
  {
    if reply.Err? then Step(d, Some(reply.message))
    else if id in d.prompts then Step(d.(prompts := d.prompts[id := d.prompts[id] + patch]), None)
    else Step(d, None)
  }

  /** `.delete().eq("id", id)` or `.delete().in("id", ids)`. */
  function DeleteStep(d: Db, t: Table, ids: set<string>, reply: Reply): (s: Step)
    ensures Valid(d) ==> Valid(s.db)
  {
    if reply.Err? then Step(d, Some(reply.message))
    else Step(WithRows(d, t, RowsOf(d, t) - ids), None)
  }

  /** `.from("settings").select("value").eq("key", key).single()`. */
  function SelectSetting(d: Db, key: string, reply: Reply): Fetch<string>
  {
    if reply.Err? then Failed(reply.message)
    else if key !in d.settings then Failed(NoRowMessage)
    else Found(d.settings[key])
  }

  /** `.from("settings").upsert({ key, value })`. */
  function UpsertStep(d: Db, key: string, value: string, reply: Reply): (s: Step)
  {
    if reply.Err? then Step(d, Some(reply.message))
    else Step(d.(settings := d.settings[key := value]), None)
  }

  /** The store as the client code sees it: each method is one call. */
  class Store {
    var prompts: map<string, Row>
    var histories: seq<Row>
    var favorites: map<string, Row>
    var trash: map<string, Row>
    var settings: map<string, string>
    var user: Option<string>

    function State(): Db
      reads this
    {
      Db(prompts, histories, favorites, trash, settings, user)
    }

    predicate Valid()
      reads this
    {
      KeyedById(prompts) && KeyedById(favorites) && KeyedById(trash)
    }

    constructor (d: Db)
      ensures State() == d
    {
      prompts, histories, favorites, trash := d.prompts, d.histories, d.favorites, d.trash;
      settings, user := d.settings, d.user;
    }

    method Load(d: Db)
      modifies this
      ensures State() == d
    {
      prompts, histories, favorites, trash := d.prompts, d.histories, d.favorites, d.trash;
      settings, user := d.settings, d.user;
    }

    method Select(t: Table, id: string, reply: Reply) returns (r: Fetch<Row>)
      ensures r == SelectOne(State(), t, id, reply)
    {
      r := SelectOne(State(), t, id, reply);
    }

    method ReadSetting(key: string, reply: Reply) returns (r: Fetch<string>)
      ensures r == SelectSetting(State(), key, reply)
    {
      r := SelectSetting(State(), key, reply);
    }

    method SelectIn(t: Table, ids: seq<string>, reply: Reply) returns (r: Fetch<seq<Row>>)
      ensures r == SelectMany(State(), t, ids, reply)
    {
      r := SelectMany(State(), t, ids, reply);
    }

    method Insert(t: Table, rows: seq<Row>, gen: nat -> string, reply: Reply) returns (error: Option<string>)
      modifies this
      ensures Step(State(), error) == InsertStep(old(State()), t, rows, gen, reply)
    {
      var s := InsertStep(State(), t, rows, gen, reply);
      Load(s.db);
      error := s.error;
    }

    method InsertHistory(row: Row, reply: Reply) returns (error: Option<string>)
      modifies this
      ensures Step(State(), error) == InsertHistoryStep(old(State()), row, reply)
    {
      var s := InsertHistoryStep(State(), row, reply);
      Load(s.db);
      error := s.error;
    }

    method Update(id: string, patch: Row, reply: Reply) returns (error: Option<string>)
      requires Id !in patch
      modifies this
      ensures Step(State(), error) == UpdateStep(old(State()), id, patch, reply)
    {
      var s := UpdateStep(State(), id, patch, reply);
      Load(s.db);
      error := s.error;
    }

    method Delete(t: Table, ids: set<string>, reply: Reply) returns (error: Option<string>)
      modifies this
      ensures Step(State(), error) == DeleteStep(old(State()), t, ids, reply)
    {
      var s := DeleteStep(State(), t, ids, reply);
      Load(s.db);
      error := s.error;
    }

    method Upsert(key: string, value: string, reply: Reply) returns (error: Option<string>)
      modifies this
      ensures Step(State(), error) == UpsertStep(old(State()), key, value, reply)
    {
      var s := UpsertStep(State(), key, value, reply);
      Load(s.db);
      error := s.error;
    }
  }
}
