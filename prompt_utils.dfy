/** `generateFullPrompt` (lib/utils.ts): the final prompt text built from the
    form fields by a fixed template. It reads and writes no state. */
module PromptUtils {
  import opened Rows
  import opened Text

  const FieldSeparator := ", "
  const AspectMarker := "-- ar "

  /** The template `${core_theme}, ${hair}, …, ${details}, -- ar ${aspect_ratio}`. */
  function GenerateFullPrompt(p: PromptFormData): (r: string)
    ensures |r| == |p.coreTheme| + |p.hair| + |p.pose| + |p.outfit| + |p.atmosphere| + |p.gaze|
                   + |p.makeup| + |p.background| + |p.details| + |p.aspectRatio| + 24
    ensures r[..|p.coreTheme|] == p.coreTheme
    ensures r[|r| - |p.aspectRatio| - 6..] == AspectMarker + p.aspectRatio
  {
    p.coreTheme + ", " + p.hair + ", " + p.pose + ", " + p.outfit + ", " + p.atmosphere + ", "
    + p.gaze + ", " + p.makeup + ", " + p.background + ", " + p.details + ", -- ar " + p.aspectRatio
  }

  /** The pieces the template puts between its separators, in order. */
  function Pieces(p: PromptFormData): seq<string>
  {
    [p.coreTheme, p.hair, p.pose, p.outfit, p.atmosphere, p.gaze, p.makeup, p.background,
     p.details, AspectMarker + p.aspectRatio]
  }

  /** The template is the nine fields and the aspect marker joined by ", ". */
  lemma TemplateIsJoin(p: PromptFormData)
    ensures GenerateFullPrompt(p) == Join(Pieces(p), FieldSeparator)
  {
    var s := FieldSeparator;
    var x1 := [p.coreTheme];
    assert Join(x1, s) == p.coreTheme;
    var x2 := x1 + [p.hair];        JoinSnoc(x1, p.hair, s);
    var x3 := x2 + [p.pose];        JoinSnoc(x2, p.pose, s);
    var x4 := x3 + [p.outfit];      JoinSnoc(x3, p.outfit, s);
    var x5 := x4 + [p.atmosphere];  JoinSnoc(x4, p.atmosphere, s);
    var x6 := x5 + [p.gaze];        JoinSnoc(x5, p.gaze, s);
    var x7 := x6 + [p.makeup];      JoinSnoc(x6, p.makeup, s);
    var x8 := x7 + [p.background];  JoinSnoc(x7, p.background, s);
    var x9 := x8 + [p.details];     JoinSnoc(x8, p.details, s);
    var marker := AspectMarker + p.aspectRatio;
    var x10 := x9 + [marker];       JoinSnoc(x9, marker, s);
    assert Join(x9, s) + s + marker == Join(x9, s) + ", -- ar " + p.aspectRatio;
    assert x10 == Pieces(p);
  }

  lemma SeparatorUnbordered()
    ensures Unbordered(FieldSeparator)
  {
    assert FieldSeparator[..1] == [','] && FieldSeparator[1..] == [' '];
  }

  /** When no field holds ", ", splitting the text on ", " gives back the
      nine fields in order and then the aspect marker with the ratio. */
  lemma SplitRecoversFields(p: PromptFormData)
    requires forall i :: 0 <= i < 10 ==> !Contains(Pieces(p)[i], FieldSeparator)
    ensures Split(GenerateFullPrompt(p), FieldSeparator) == Pieces(p)
  {
    TemplateIsJoin(p);
    SeparatorUnbordered();
    SplitJoin(Pieces(p), FieldSeparator);
  }
}
