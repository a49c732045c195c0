/** Record shapes of the prompt store (lib/types.ts) and the little of
    JavaScript's value semantics the components depend on: truthiness,
    `??`, and string conversion in `+`. A row is a map from column to
    value; a key whose value would be `undefined` is absent, as it is once
    the row has been serialised to JSON. */
module Rows {
  import opened Options

  /** A column value as it travels between the client and the store. */
  datatype Value = Null | Str(s: string) | Num(n: int) | Bool(b: bool)

  /** The columns the code names, one constructor per database column;
      `Other` is any further column a row may carry. */
  datatype Column =
    | Id | CoreTheme | Version | Hair | Pose | Outfit | Atmosphere | Gaze
    | Makeup | Background | FinalPrompt | AspectRatio | Details | CreatedAt
    | UserId | PromptId | DeletedAt | IsFavorite | FavoriteId | FavoriteStatus
    | FavoriteSnapshotCreatedAt | OriginType | ItemUid
    | Other(name: string)

  type Row = map<Column, Value>

  /** Property read: `row.k`, `None` standing for `undefined`. */
  function Lookup(r: Row, k: Column): Option<Value>
  {
    if k in r then Some(r[k]) else None
  }

  /** JavaScript truthiness of a property read. */
  predicate Truthy(v: Option<Value>)
  {
    match v
    case None => false
    case Some(Null) => false
    case Some(Str(s)) => s != ""
    case Some(Num(n)) => n != 0
    case Some(Bool(b)) => b
  }

  /** `x ?? d`: the default replaces only `undefined` and `null`. */
  function Coalesce(v: Option<Value>, d: Value): (r: Value)
    ensures v.Some? && v.value != Null ==> r == v.value
    ensures v.None? || v == Some(Null) ==> r == d
  {
    match v
    case Some(x) => if x == Null then d else x
    case None => d
  }

  /** Decimal digits of a natural number, as `String(n)` writes them. */
  function NatToString(n: nat): (r: string)
    ensures |r| > 0
    ensures forall i :: 0 <= i < |r| ==> '0' <= r[i] <= '9'
    decreases n
  {
    var d := [(n % 10) as char + '0'];
    if n < 10 then d else NatToString(n / 10) + d
  }

  /** The string JavaScript's `+` makes of a property read when the other
      operand is a string. */
  function JsString(v: Option<Value>): string
  {
    match v
    case None => "undefined"
    case Some(Null) => "null"
    case Some(Str(s)) => s
    case Some(Bool(b)) => if b then "true" else "false"
    case Some(Num(n)) => if n < 0 then "-" + NatToString(-n) else NatToString(n)
  }

  /** `Prompt` of lib/types.ts, as a component receives it. A `details` column
      holding null arrives as `None`. */
  datatype Prompt = Prompt(
    id: string,
    coreTheme: string,
    version: int,
    hair: string,
    pose: string,
    outfit: string,
    atmosphere: string,
    gaze: string,
    makeup: string,
    background: string,
    finalPrompt: string,
    aspectRatio: string,
    createdAt: Option<string>,
    details: Option<string>,
    userId: Option<string>)

  /** `origin_type` of a trash row (`TrashItem` of lib/types.ts) that came
      from `favorite_prompts`; any other value means `prompts`. */
  const FavoriteOrigin := "FAVORITE"

  /** The ten attribute columns a prompt update writes. */
  const AttributeKeys: set<Column> :=
    {CoreTheme, Hair, Pose, Outfit, Atmosphere, Gaze, Makeup,
     Background, AspectRatio, Details}

  /** The eleven content columns a history snapshot archives. */
  const ContentKeys: set<Column> := AttributeKeys + {FinalPrompt}

  function OptStr(o: Option<string>): Value
  {
    match o
    case Some(s) => Str(s)
    case None => Null
  }

  /** Reads an optional text column: null and a missing key both give `None`. */
  function StrOpt(v: Option<Value>): Option<Option<string>>
  {
    match v
    case None => Some(None)
    case Some(Null) => Some(None)
    case Some(Str(s)) => Some(Some(s))
    case Some(_) => None
  }

  predicate IsStr(r: Row, k: Column)
  {
    k in r && r[k].Str?
  }

  /** Reads a row back as a `Prompt`; `None` when a column has the wrong type. */
  function FromRow(r: Row): Option<Prompt>
  {
    if IsStr(r, Id) && IsStr(r, CoreTheme) && Version in r && r[Version].Num?
       && IsStr(r, Hair) && IsStr(r, Pose) && IsStr(r, Outfit) && IsStr(r, Atmosphere)
       && IsStr(r, Gaze) && IsStr(r, Makeup) && IsStr(r, Background)
       && IsStr(r, FinalPrompt) && IsStr(r, AspectRatio)
       && StrOpt(Lookup(r, CreatedAt)).Some? && StrOpt(Lookup(r, Details)).Some?
       && StrOpt(Lookup(r, UserId)).Some?
    then
      Some(Prompt(r[Id].s, r[CoreTheme].s, r[Version].n, r[Hair].s, r[Pose].s,
                  r[Outfit].s, r[Atmosphere].s, r[Gaze].s, r[Makeup].s,
                  r[Background].s, r[FinalPrompt].s, r[AspectRatio].s,
                  StrOpt(Lookup(r, CreatedAt)).value, StrOpt(Lookup(r, Details)).value,
                  StrOpt(Lookup(r, UserId)).value))
    else None
  }

  /** `PromptAttributes` of app/actions/prompt.ts: what an update writes. The
      interface types `details` as a string, but the edit sheet passes the
      prompt's own `details`, which may be null. */
  datatype Attributes = Attributes(
    coreTheme: string,
    hair: string,
    pose: string,
    outfit: string,
    atmosphere: string,
    gaze: string,
    makeup: string,
    background: string,
    aspectRatio: string,
    details: Option<string>)

  /** `...attributes` as columns. */
  function AttributesRow(a: Attributes): (r: Row)
    ensures r.Keys == AttributeKeys
  {
    map[
      CoreTheme := Str(a.coreTheme), Hair := Str(a.hair), Pose := Str(a.pose),
      Outfit := Str(a.outfit), Atmosphere := Str(a.atmosphere), Gaze := Str(a.gaze),
      Makeup := Str(a.makeup), Background := Str(a.background),
      AspectRatio := Str(a.aspectRatio), Details := OptStr(a.details)]
  }

  /** Reads the attribute columns of a row back; `None` when one has the wrong type. */
  function AttributesOf(r: Row): Option<Attributes>
  {
    if IsStr(r, CoreTheme) && IsStr(r, Hair) && IsStr(r, Pose) && IsStr(r, Outfit)
       && IsStr(r, Atmosphere) && IsStr(r, Gaze) && IsStr(r, Makeup)
       && IsStr(r, Background) && IsStr(r, AspectRatio) && StrOpt(Lookup(r, Details)).Some?
    then
      Some(Attributes(r[CoreTheme].s, r[Hair].s, r[Pose].s, r[Outfit].s,
                      r[Atmosphere].s, r[Gaze].s, r[Makeup].s, r[Background].s,
                      r[AspectRatio].s, StrOpt(Lookup(r, Details)).value))
    else None
  }

  /** The columns written for a set of attributes read back as those attributes. */
  lemma AttributesRoundTrip(a: Attributes)
    ensures AttributesOf(AttributesRow(a)) == Some(a)
  {
    var r := AttributesRow(a);
    assert StrOpt(Lookup(r, Details)) == Some(a.details) by { assert r[Details] == OptStr(a.details); }
  }

  /** The attributes of a prompt. */
  function PromptAttributes(p: Prompt): Attributes
  {
    Attributes(p.coreTheme, p.hair, p.pose, p.outfit, p.atmosphere, p.gaze, p.makeup,
               p.background, p.aspectRatio, p.details)
  }

  /** A row read as a prompt holds that prompt's attributes, final prompt,
      version and id. */
  lemma FromRowColumns(r: Row, p: Prompt)
    requires FromRow(r) == Some(p)
    ensures AttributesOf(r) == Some(PromptAttributes(p))
    ensures Lookup(r, FinalPrompt) == Some(Str(p.finalPrompt))
    ensures Lookup(r, Version) == Some(Num(p.version))
    ensures Lookup(r, Id) == Some(Str(p.id))
  {
  }

  /** Reading the attributes depends on the attribute columns alone. */
  lemma AttributesOfColumns(r: Row, s: Row)
    requires forall k :: k in AttributeKeys ==> Lookup(r, k) == Lookup(s, k)
    ensures AttributesOf(r) == AttributesOf(s)
  {
    assert forall k :: k in AttributeKeys ==> (IsStr(r, k) <==> IsStr(s, k)) by {
      forall k | k in AttributeKeys ensures IsStr(r, k) <==> IsStr(s, k) {
        assert Lookup(r, k) == Lookup(s, k);
      }
    }
    assert Lookup(r, Details) == Lookup(s, Details);
    if AttributesOf(r).Some? {
      assert Lookup(r, CoreTheme) == Lookup(s, CoreTheme);
      assert Lookup(r, Hair) == Lookup(s, Hair);
      assert Lookup(r, Pose) == Lookup(s, Pose);
      assert Lookup(r, Outfit) == Lookup(s, Outfit);
      assert Lookup(r, Atmosphere) == Lookup(s, Atmosphere);
      assert Lookup(r, Gaze) == Lookup(s, Gaze);
      assert Lookup(r, Makeup) == Lookup(s, Makeup);
      assert Lookup(r, Background) == Lookup(s, Background);
      assert Lookup(r, AspectRatio) == Lookup(s, AspectRatio);
    }
  }

  /** `PromptFormData` of lib/types.ts, the argument of `generateFullPrompt`. */
  datatype PromptFormData = PromptFormData(
    coreTheme: string,
    version: int,
    hair: string,
    pose: string,
    outfit: string,
    atmosphere: string,
    gaze: string,
    makeup: string,
    background: string,
    finalPrompt: string,
    aspectRatio: string,
    details: string,
    userId: string)
}
