/** The merge page (app/merge/page.tsx): the `ids` query parameter is split
    on ",", the listed prompts are fetched, and their final prompts are put
    one after another with a banner line between them. */
module MergePage {
  import opened Options
  import opened Rows
  import opened Text
  import opened RecordStore

  const IdSeparator := ","
  const Banner := "\n-------------\n"
  const LoadErrorPrefix := "Error loading prompts: "
  const UnknownErrorMessage := "Unknown error"

  /** `idsParam?.split(",") || []`. A present parameter, even an empty one,
      splits into at least one id, so only an absent one gives no ids. */
  function ParseIds(param: Option<string>): (ids: seq<string>)
    ensures ids == [] <==> param.None?
    ensures param.Some? ==> ids == Split(param.value, IdSeparator)
  {
    match param
    case None => []
    case Some(s) => Split(s, IdSeparator)
  }

  /** `p.final_prompt || ""`. */
  function FinalText(p: Row): string
  {
    match Lookup(p, FinalPrompt)
    case Some(Str(s)) => s
    case _ => ""
  }

  /** `.map((p) => p.final_prompt || "").filter((text) => text.trim() !== "")`. */
  function Survivors(rows: seq<Row>): (r: seq<string>)
    ensures |r| <= |rows|
    ensures forall i :: 0 <= i < |r| ==> Trim(r[i]) != ""
    decreases |rows|
  {
    if rows == [] then []
    else
      var init, text := rows[..|rows| - 1], FinalText(rows[|rows| - 1]);
      Survivors(init) + (if Trim(text) != "" then [text] else [])
  }

  /** The filter works row by row, so the survivors keep the fetched order. */
  lemma {:induction false} SurvivorsAppend(a: seq<Row>, b: seq<Row>)
    ensures Survivors(a + b) == Survivors(a) + Survivors(b)
    decreases |b|
  {
    if b != [] {
      assert (a + b)[..|a + b| - 1] == a + b[..|b| - 1];
      assert (a + b)[|a + b| - 1] == b[|b| - 1];
      SurvivorsAppend(a, b[..|b| - 1]);
    } else {
      assert a + b == a;
    }
  }

  /** A row survives, with its text unchanged, exactly when that text is not
      blank. */
  lemma SurvivorsOne(p: Row)
    ensures Survivors([p]) == if IsBlank(FinalText(p)) then [] else [FinalText(p)]
  {
    assert [p][..0] == [];
    TrimEmptyIffBlank(FinalText(p));
  }

  /** `mergedText`: the kept texts with a banner line between each two.
      No survivor gives the empty text, one survivor gives its text alone. */
  function MergedText(rows: seq<Row>): (r: string)
    ensures Survivors(rows) == [] ==> r == ""
    ensures |Survivors(rows)| == 1 ==> r == Survivors(rows)[0]
  {
    Join(Survivors(rows), Banner)
  }

  /** Two parts that each keep some text are merged with exactly one banner
      between them; a part that keeps none adds nothing, so no banner leads
      or trails. */
  lemma MergedAppend(a: seq<Row>, b: seq<Row>)
    ensures Survivors(a) != [] && Survivors(b) != [] ==>
      MergedText(a + b) == MergedText(a) + Banner + MergedText(b)
    ensures Survivors(a) == [] ==> MergedText(a + b) == MergedText(b)
    ensures Survivors(b) == [] ==> MergedText(a + b) == MergedText(a)
  {
    SurvivorsAppend(a, b);
    if Survivors(a) != [] && Survivors(b) != [] {
      JoinAppend(Survivors(a), Survivors(b), Banner);
    }
    assert Survivors(a) == [] ==> Survivors(a + b) == Survivors(b);
    assert Survivors(b) == [] ==> Survivors(a + b) == Survivors(a);
  }

  /** A row whose final prompt is blank or missing leaves the merged text as
      it is without it. */
  lemma BlankRowDropped(a: seq<Row>, p: Row, b: seq<Row>)
    requires IsBlank(FinalText(p))
    ensures MergedText(a + [p] + b) == MergedText(a + b)
  {
    SurvivorsOne(p);
    SurvivorsAppend(a, [p]);
    assert Survivors(a + [p]) == Survivors(a);
    SurvivorsAppend(a + [p], b);
    SurvivorsAppend(a, b);
    assert Survivors(a + [p] + b) == Survivors(a + b);
  }

  /** What the page shows. */
  datatype MergeView =
    | NoSelection                         // "선택된 프롬프트가 없습니다."
    | LoadError(message: string)          // "Error loading prompts: …"
    | Merged(count: nat, text: string)    // "Merged Prompts (count)" and the text

  /** The page for query parameter `param`, the fetch answered by `reply`. */
  function MergeViewOf(d: Db, param: Option<string>, reply: Reply): (v: MergeView)
    ensures v.NoSelection? <==> param.None?
    ensures param.Some? && reply.Err? ==>
      v == LoadError(LoadErrorPrefix + (if reply.message == "" then UnknownErrorMessage else reply.message))
    ensures param.Some? && reply.Ok? ==>
      var rows := SelectIn(d.prompts, ParseIds(param));
      v == Merged(|rows|, MergedText(rows))
  {
    var ids := ParseIds(param);
    if |ids| == 0 then NoSelection
    else match SelectMany(d, Prompts, ids, reply)
      case Failed(message) => LoadError(LoadErrorPrefix + (if message == "" then UnknownErrorMessage else message))
      case Found(rows) => Merged(|rows|, MergedText(rows))
  }
}
