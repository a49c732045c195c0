/** The prompt form (components/prompts/prompt-form.tsx): its state, the
    required-field validation, submission and field edits. */
module PromptForm {
  import opened Options
  import opened Text

  datatype Field =
    CoreTheme | Hair | Pose | Outfit | Atmosphere | Gaze | Makeup | Background
    | AspectRatio | Details | FullPrompt

  /** `PromptFormState`. `details` is typed as a string, but the edit sheet
      seeds it with a prompt's `details`, which may be null. */
  datatype FormState = FormState(
    coreTheme: string,
    hair: string,
    pose: string,
    outfit: string,
    atmosphere: string,
    gaze: string,
    makeup: string,
    background: string,
    aspectRatio: string,
    details: Option<string>,
    fullPrompt: string)

  /** `formData[field]`; only `details` can be null. */
  function Get(f: FormState, k: Field): (v: Option<string>)
    ensures k != Details ==> v.Some?
  {
    match k
    case CoreTheme => Some(f.coreTheme)
    case Hair => Some(f.hair)
    case Pose => Some(f.pose)
    case Outfit => Some(f.outfit)
    case Atmosphere => Some(f.atmosphere)
    case Gaze => Some(f.gaze)
    case Makeup => Some(f.makeup)
    case Background => Some(f.background)
    case AspectRatio => Some(f.aspectRatio)
    case Details => f.details
    case FullPrompt => Some(f.fullPrompt)
  }

  /** `{ ...f, [k]: v }`: that field takes the value, no other field changes. */
  function WithField(f: FormState, k: Field, v: string): (g: FormState)
    ensures Get(g, k) == Some(v)
    ensures forall j :: j != k ==> Get(g, j) == Get(f, j)
  {
    match k
    case CoreTheme => f.(coreTheme := v)
    case Hair => f.(hair := v)
    case Pose => f.(pose := v)
    case Outfit => f.(outfit := v)
    case Atmosphere => f.(atmosphere := v)
    case Gaze => f.(gaze := v)
    case Makeup => f.(makeup := v)
    case Background => f.(background := v)
    case AspectRatio => f.(aspectRatio := v)
    case Details => f.(details := Some(v))
    case FullPrompt => f.(fullPrompt := v)
  }

  /** `Partial<PromptFormState>`: the fields given, `None` standing for null. */
  type PartialForm = map<Field, Option<string>>

  /** Only `details` may be given as null; any other null field would make
      `validateForm` call `trim` on null. */
  predicate WellTyped(init: PartialForm)
  {
    forall k :: k in init && k != Details ==> init[k].Some?
  }

  function Pick(init: PartialForm, k: Field, s: string): string
    requires WellTyped(init) && k != Details
  {
    if k in init then init[k].value else s
  }

  /** `{ ...f, ...init }`. */
  function Spread(f: FormState, init: PartialForm): FormState
    requires WellTyped(init)
  {
    FormState(
      Pick(init, CoreTheme, f.coreTheme), Pick(init, Hair, f.hair), Pick(init, Pose, f.pose),
      Pick(init, Outfit, f.outfit), Pick(init, Atmosphere, f.atmosphere), Pick(init, Gaze, f.gaze),
      Pick(init, Makeup, f.makeup), Pick(init, Background, f.background),
      Pick(init, AspectRatio, f.aspectRatio),
      if Details in init then init[Details] else f.details,
      Pick(init, FullPrompt, f.fullPrompt))
  }

  /** Each field of `{ ...f, ...init }` is the given one, or else that of `f`. */
  lemma SpreadFields(f: FormState, init: PartialForm)
    requires WellTyped(init)
    ensures forall k :: Get(Spread(f, init), k) == if k in init then init[k] else Get(f, k)
  {
    var g := Spread(f, init);
    forall k ensures Get(g, k) == if k in init then init[k] else Get(f, k) {
      match k
      case Details =>
      case _ =>
    }
  }

  const EmptyForm := FormState("", "", "", "", "", "", "", "", "", Some(""), "")

  /** The initial form: every field empty, then the given fields over it. */
  function InitialState(init: PartialForm): (f: FormState)
    requires WellTyped(init)
    ensures forall k :: Get(f, k) == if k in init then init[k] else Some("")
  {
    SpreadFields(EmptyForm, init);
    Spread(EmptyForm, init)
  }

  /** The nine fields that must not be blank. */
  const RequiredFields: set<Field> :=
    {CoreTheme, Hair, Pose, Outfit, Atmosphere, Gaze, Makeup, Background, AspectRatio}

  const AllFields: set<Field> := RequiredFields + {Details, FullPrompt}

  function RequiredMessage(k: Field): (m: string)
    ensures k in RequiredFields ==> |m| > 0
  {
    match k
    case CoreTheme => "Core Theme은 필수 입력 항목입니다."
    case Hair => "Hair는 필수 입력 항목입니다."
    case Pose => "Pose는 필수 입력 항목입니다."
    case Outfit => "Outfit은 필수 입력 항목입니다."
    case Atmosphere => "Atmosphere는 필수 입력 항목입니다."
    case Gaze => "Gaze는 필수 입력 항목입니다."
    case Makeup => "Makeup은 필수 입력 항목입니다."
    case Background => "Background는 필수 입력 항목입니다."
    case AspectRatio => "Aspect Ratio는 필수 선택 항목입니다."
    case Details => ""
    case FullPrompt => ""
  }

  /** A required field whose value trims to "". */
  predicate MissingField(f: FormState, k: Field)
  {
    k in RequiredFields && IsBlank(Get(f, k).value)
  }

  /** The error map `validateForm` builds for `f`. */
  function FormErrors(f: FormState): (e: map<Field, string>)
    ensures forall k :: k in e <==> MissingField(f, k)
    ensures forall k :: k in e ==> e[k] == RequiredMessage(k)
  {
    map k | k in RequiredFields && IsBlank(Get(f, k).value) :: RequiredMessage(k)
  }

  /** `e` holds exactly the errors of the fields in `done`. */
  predicate Checked(e: map<Field, string>, f: FormState, done: set<Field>)
  {
    forall k :: (k in e <==> k in done && MissingField(f, k)) && (k in e ==> e[k] == RequiredMessage(k))
  }

  /** Adds the error of field `k` when it is missing, as each `if` of
      `validateForm` does. */
  function CheckRequired(e: map<Field, string>, f: FormState, k: Field): map<Field, string>
  {
    if MissingField(f, k) then e[k := RequiredMessage(k)] else e
  }

  /** The error map as `validateForm` builds it, one field after another. */
  function ValidationErrors(f: FormState): map<Field, string>
  {
    var e := CheckRequired(map[], f, CoreTheme);
    var e := CheckRequired(e, f, Hair);
    var e := CheckRequired(e, f, Pose);
    var e := CheckRequired(e, f, Outfit);
    var e := CheckRequired(e, f, Atmosphere);
    var e := CheckRequired(e, f, Gaze);
    var e := CheckRequired(e, f, Makeup);
    var e := CheckRequired(e, f, Background);
    CheckRequired(e, f, AspectRatio)
  }

  lemma CheckStep(e: map<Field, string>, f: FormState, done: set<Field>, k: Field)
    requires Checked(e, f, done) && k in RequiredFields
    ensures Checked(CheckRequired(e, f, k), f, done + {k})
  {
    var next := CheckRequired(e, f, k);
    if MissingField(f, k) {
      assert next == e[k := RequiredMessage(k)];
      forall j ensures (j in next <==> j in done + {k} && MissingField(f, j))
        && (j in next ==> next[j] == RequiredMessage(j))
      {
        if j != k { assert j in next <==> j in e; }
      }
    } else {
      assert next == e;
      forall j ensures (j in next <==> j in done + {k} && MissingField(f, j))
        && (j in next ==> next[j] == RequiredMessage(j))
      {
        if j != k { assert j in next <==> j in e; }
      }
    }
  }

  /** Checking the nine fields one by one yields exactly the errors of the
      blank required fields. */
  lemma ValidationMatchesFormErrors(f: FormState)
    ensures ValidationErrors(f) == FormErrors(f)
  {
    var e: map<Field, string> := map[];
    var done: set<Field> := {};
    CheckStep(e, f, done, CoreTheme);
    e, done := CheckRequired(e, f, CoreTheme), done + {CoreTheme};
    CheckStep(e, f, done, Hair);
    e, done := CheckRequired(e, f, Hair), done + {Hair};
    CheckStep(e, f, done, Pose);
    e, done := CheckRequired(e, f, Pose), done + {Pose};
    CheckStep(e, f, done, Outfit);
    e, done := CheckRequired(e, f, Outfit), done + {Outfit};
    CheckStep(e, f, done, Atmosphere);
    e, done := CheckRequired(e, f, Atmosphere), done + {Atmosphere};
    CheckStep(e, f, done, Gaze);
    e, done := CheckRequired(e, f, Gaze), done + {Gaze};
    CheckStep(e, f, done, Makeup);
    e, done := CheckRequired(e, f, Makeup), done + {Makeup};
    CheckStep(e, f, done, Background);
    e, done := CheckRequired(e, f, Background), done + {Background};
    CheckStep(e, f, done, AspectRatio);
    e, done := CheckRequired(e, f, AspectRatio), done + {AspectRatio};
    assert RequiredFields <= done;
    SameMaps(e, FormErrors(f));
  }

  lemma SameMaps(a: map<Field, string>, b: map<Field, string>)
    requires forall k :: k in a <==> k in b
    requires forall k :: k in a ==> a[k] == b[k]
    ensures a == b
  {
  }

  /** The form is valid exactly when each required field is non-empty after
      `trim`; `details` and `fullPrompt` never produce an error. */
  lemma ValidIffRequiredFilled(f: FormState)
    ensures FormErrors(f) == map[] <==> forall k :: k in RequiredFields ==> Trim(Get(f, k).value) != ""
    ensures Details !in FormErrors(f) && FullPrompt !in FormErrors(f)
  {
    forall k | k in RequiredFields
      ensures Trim(Get(f, k).value) == "" <==> MissingField(f, k)
    {
      TrimEmptyIffBlank(Get(f, k).value);
    }
    if FormErrors(f) != map[] {
      var k :| k in FormErrors(f);
      assert MissingField(f, k);
    } else {
      assert forall k :: !MissingField(f, k);
    }
  }

  /** Editing field `k` leaves the error of every other field as it was. */
  lemma EditKeepsOtherError(f: FormState, k: Field, v: string, j: Field)
    requires j != k
    ensures j in FormErrors(WithField(f, k, v)) <==> j in FormErrors(f)
  {
    assert MissingField(WithField(f, k, v), j) == MissingField(f, j);
  }

  /** Two error maps holding the same fields, each with its own message, are equal. */
  lemma SameErrors(a: map<Field, string>, b: map<Field, string>)
    requires forall k :: k in a <==> k in b
    requires forall k :: k in a ==> a[k] == RequiredMessage(k)
    requires forall k :: k in b ==> b[k] == RequiredMessage(k)
    ensures a == b
  {
  }

  /** Filling in a field with a non-blank value removes its error and no other. */
  lemma FillClearsError(f: FormState, k: Field, v: string)
    requires !IsBlank(v)
    ensures FormErrors(WithField(f, k, v)) == FormErrors(f) - {k}
  {
    var g := WithField(f, k, v);
    assert !MissingField(g, k) by { assert Get(g, k) == Some(v); }
    forall j | j != k ensures j in FormErrors(g) <==> j in FormErrors(f) {
      EditKeepsOtherError(f, k, v, j);
    }
    SameErrors(FormErrors(g), FormErrors(f) - {k});
  }

  /** Blanking a required field adds its error and no other. */
  lemma BlankSetsError(f: FormState, k: Field, v: string)
    requires IsBlank(v) && k in RequiredFields
    ensures FormErrors(WithField(f, k, v)) == FormErrors(f)[k := RequiredMessage(k)]
  {
    var g := WithField(f, k, v);
    assert MissingField(g, k) by { assert Get(g, k) == Some(v); }
    forall j | j != k ensures j in FormErrors(g) <==> j in FormErrors(f) {
      EditKeepsOtherError(f, k, v, j);
    }
    SameErrors(FormErrors(g), FormErrors(f)[k := RequiredMessage(k)]);
  }

  class PromptForm {
    var formData: FormState
    var errors: map<Field, string>

    /** Every recorded error is a non-empty message for a required field. */
    predicate Valid()
      reads this
    {
      forall k :: k in errors ==> k in RequiredFields && errors[k] != ""
    }

    constructor (initialData: PartialForm)
      requires WellTyped(initialData)
      ensures formData == InitialState(initialData) && errors == map[]
      ensures Valid()
    {
      formData := InitialState(initialData);
      errors := map[];
    }

    /** The effect that merges `initialData` again whenever it changes. */
    method Hydrate(initialData: PartialForm)
      requires WellTyped(initialData)
      modifies this`formData
      ensures formData == Spread(old(formData), initialData)
    {
      formData := Spread(formData, initialData);
    }

    /** `validateForm`: records one error per blank required field and
        answers whether there were none. */
    method ValidateForm() returns (valid: bool)
      modifies this`errors
      ensures errors == ValidationErrors(formData) == FormErrors(formData)
      ensures valid <==> errors == map[]
      ensures Valid()
    {
      var newErrors: map<Field, string> := map[];
      newErrors := CheckRequired(newErrors, formData, CoreTheme);
      newErrors := CheckRequired(newErrors, formData, Hair);
      newErrors := CheckRequired(newErrors, formData, Pose);
      newErrors := CheckRequired(newErrors, formData, Outfit);
      newErrors := CheckRequired(newErrors, formData, Atmosphere);
      newErrors := CheckRequired(newErrors, formData, Gaze);
      newErrors := CheckRequired(newErrors, formData, Makeup);
      newErrors := CheckRequired(newErrors, formData, Background);
      newErrors := CheckRequired(newErrors, formData, AspectRatio);
      ValidationMatchesFormErrors(formData);
      errors := newErrors;
      valid := |errors.Keys| == 0;
    }

    /** `handleSubmit`: the data handed to `onSubmit`, only when valid. */
    method HandleSubmit() returns (submitted: Option<FormState>)
      modifies this`errors
      ensures errors == FormErrors(formData)
      ensures submitted == if errors == map[] then Some(formData) else None
      ensures Valid()
    {
      var valid := ValidateForm();
      if !valid {
        return None;
      }
      return Some(formData);
    }

    /** `handleInputChange`: sets the field and drops that field's error. */
    method HandleInputChange(k: Field, v: string)
      modifies this
      ensures formData == WithField(old(formData), k, v)
      ensures errors == if k in old(errors) && old(errors)[k] != "" then old(errors) - {k} else old(errors)
    {
      formData := WithField(formData, k, v);
      if k in errors && errors[k] != "" {
        errors := errors - {k};
      }
    }
  }

  /** After a validation, filling in a field with a non-blank value leaves
      exactly the errors a new validation would report. */
  lemma InputChangeKeepsErrorsCurrent(f: FormState, k: Field, v: string)
    requires !IsBlank(v)
    ensures var e := FormErrors(f);
      (if k in e && e[k] != "" then e - {k} else e) == FormErrors(WithField(f, k, v))
  {
    FillClearsError(f, k, v);
  }
}
