/** The interview set-up form (src/components/InterviewPage/PreInterviewSetup.jsx):
    three required fields, per-field error messages cleared as the user types,
    and a five-second countdown that hands the form over exactly once. */
module PreInterview {
  import opened Text

  datatype Field = RoleField | ExperienceField | CompanyField | SkillsField | IndustryField | FocusField

  datatype SetupForm = SetupForm(role: string, experience: string, company: string,
                                 skills: string, industry: string, focus: string)

  const EmptyForm := SetupForm("", "", "", "", "", "")

  function Get(form: SetupForm, f: Field): string {
    match f
    case RoleField => form.role
    case ExperienceField => form.experience
    case CompanyField => form.company
    case SkillsField => form.skills
    case IndustryField => form.industry
    case FocusField => form.focus
  }

  /** `{...prev, [name]: value}`: one field replaced. */
  function Set(form: SetupForm, f: Field, value: string): (r: SetupForm)
    ensures Get(r, f) == value
    ensures forall g :: g != f ==> Get(r, g) == Get(form, g)
  {
    match f
    case RoleField => form.(role := value)
    case ExperienceField => form.(experience := value)
    case CompanyField => form.(company := value)
    case SkillsField => form.(skills := value)
    case IndustryField => form.(industry := value)
    case FocusField => form.(focus := value)
  }

  /** The `errors` object: a message per field that has one. */
  type Errors = map<Field, string>

  const RoleMessage := "Please specify the role you are interviewing for"
  const ExperienceMessage := "Please select your experience level"
  const CompanyMessage := "Please enter the target company name"

  /** `validateForm`: the role and company must be non-blank after trimming, the
      experience level must be non-empty; the optional fields are never checked.
      The form is valid exactly when no message was produced. */
  function ValidateForm(form: SetupForm): (r: (bool, Errors))
    ensures RoleField in r.1 <==> IsBlank(form.role)
    ensures ExperienceField in r.1 <==> form.experience == ""
    ensures CompanyField in r.1 <==> IsBlank(form.company)
    ensures SkillsField !in r.1 && IndustryField !in r.1 && FocusField !in r.1
    ensures RoleField in r.1 ==> r.1[RoleField] == RoleMessage
    ensures ExperienceField in r.1 ==> r.1[ExperienceField] == ExperienceMessage
    ensures CompanyField in r.1 ==> r.1[CompanyField] == CompanyMessage
    ensures r.0 <==> !IsBlank(form.role) && form.experience != "" && !IsBlank(form.company)
    ensures r.0 <==> r.1 == map[]
  {
    var e0: Errors := map[];
    var e1 := if Trim(form.role) == "" then e0[RoleField := RoleMessage] else e0;
    var e2 := if form.experience == "" then e1[ExperienceField := ExperienceMessage] else e1;
    var e3 := if Trim(form.company) == "" then e2[CompanyField := CompanyMessage] else e2;
    (|e3.Keys| == 0, e3)
  }

  /** The optional fields never affect validity. */
  lemma OptionalFieldsIrrelevant(form: SetupForm, f: Field, value: string)
    requires f in {SkillsField, IndustryField, FocusField}
    ensures ValidateForm(Set(form, f, value)) == ValidateForm(form)
  {
  }

  /** `handleInputChange`: the field takes the new value, and its error, if it
      had a non-empty one, becomes the empty string; no other field or error
      changes. */
  function InputChange(form: SetupForm, errors: Errors, f: Field, value: string): (r: (SetupForm, Errors))
    ensures r.0 == Set(form, f, value)
    ensures r.1.Keys == errors.Keys
    ensures f in r.1 ==> r.1[f] == ""
    ensures forall g :: g != f && g in errors ==> r.1[g] == errors[g]
  {
    var errors' := if f in errors && errors[f] != "" then errors[f := ""] else errors;
    (Set(form, f, value), errors')
  }

  /** Fixing a field after a failed validation leaves the other messages standing. */
  lemma FixOneFieldKeepsOthers(form: SetupForm, f: Field, g: Field, value: string)
    requires f != g && g in ValidateForm(form).1
    ensures InputChange(form, ValidateForm(form).1, f, value).1[g] == ValidateForm(form).1[g]
  {
  }

  /** The component state that the countdown touches. */
  datatype SetupState = SetupState(form: SetupForm, errors: Errors, isStarting: bool, countdown: int)

  const CountdownStart: int := 5

  /** `startCountdown`: validation runs first and an invalid form only shows its
      messages; a valid one switches to the countdown screen starting at 5. */
  function StartCountdown(st: SetupState): (r: SetupState)
    ensures r.errors == ValidateForm(st.form).1 && r.form == st.form
    ensures !ValidateForm(st.form).0 ==> r == st.(errors := ValidateForm(st.form).1)
    ensures ValidateForm(st.form).0 ==> r.isStarting && r.countdown == CountdownStart
  {
    var (valid, errors) := ValidateForm(st.form);
    if !valid then st.(errors := errors)
    else st.(errors := errors, isStarting := true, countdown := CountdownStart)
  }

  /** An invalid form never starts the countdown. */
  lemma InvalidNeverStarts(st: SetupState)
    requires !st.isStarting
    requires IsBlank(st.form.role) || st.form.experience == "" || IsBlank(st.form.company)
    ensures !StartCountdown(st).isStarting
  {
  }

  /** One interval tick: the counter's next value and whether `onStartInterview`
      was called (the interval is cleared on that same tick). */
  function Tick(prev: int): (r: (int, bool))
    ensures r.1 <==> prev <= 1
    ensures r.1 ==> r.0 == 0
    ensures !r.1 ==> r.0 == prev - 1 && r.0 >= 1
  {
    if prev <= 1 then (0, true) else (prev - 1, false)
  }

  /** The interval after `n` more ticks, from counter `count`, while `running`
      (not yet cleared): the counter and how many times the callback fired. */
  function RunTicks(count: int, running: bool, n: nat): (int, nat)
    decreases n
  {
    if n == 0 || !running then (count, 0)
    else
      var (next, fired) := Tick(count);
      var (final, more) := RunTicks(next, !fired, n - 1);
      (final, more + if fired then 1 else 0)
  }

  /** From a positive counter `c`, the callback has fired once after `c` or more
      ticks and not at all before; the counter reads `c - n` until it reaches 0. */
  lemma {:induction false} RunTicksFromCount(c: int, n: nat)
    requires c >= 1
    ensures RunTicks(c, true, n) == if n >= c then (0, 1) else (c - n, 0)
    decreases n
  {
    if n > 0 {
      if c == 1 {
        assert RunTicks(0, false, n - 1) == (0, 0);
      } else {
        RunTicksFromCount(c - 1, n - 1);
      }
    }
  }

  /** A started countdown calls `onStartInterview` exactly once, on the fifth
      tick, and never again however long the page stays open. */
  lemma FiresOnceAfterFive(n: nat)
    ensures RunTicks(CountdownStart, true, n).1 == if n >= 5 then 1 else 0
    ensures n >= 5 ==> RunTicks(CountdownStart, true, n).0 == 0
  {
    RunTicksFromCount(CountdownStart, n);
  }
}
