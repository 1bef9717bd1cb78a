/** The "Post a job" form of the recruiter page
    (src/components/RecruiterPage/RecruiterPage.jsx, `handleAddJob`): the
    comma-separated skills and newline-separated requirements are parsed into
    lists, the payload is sent, and the form is reset after a successful create. */
module RecruiterForm {
  import opened Wrappers
  import opened Records
  import opened Text
  import Seqs

  /** The form fields, all edited as text. */
  datatype JobForm = JobForm(
    title: string,
    company: string,
    location: string,
    jobType: string,
    experience: string,
    salary: string,
    description: string,
    requirements: string,
    skills: string)

  /** The values the form starts with and returns to. */
  const DefaultForm := JobForm("", "", "", "Full-time", "Entry Level", "", "", "", "")

  /** Every piece trimmed, in order. */
  function TrimAll(parts: seq<string>): (r: seq<string>)
    ensures |r| == |parts| && forall k :: 0 <= k < |parts| ==> r[k] == Trim(parts[k])
    ensures forall x :: x in r ==> Trimmed(x)
  {
    seq(|parts|, k requires 0 <= k < |parts| => Trim(parts[k]))
  }

  /** `filter(Boolean)` on strings. */
  predicate NonEmpty(x: string) {
    x != ""
  }

  /** `skills.split(',').map(s => s.trim()).filter(Boolean)`: the trimmed
      pieces in order, with every copy of a non-empty one kept and every empty
      one dropped. */
  function ParseSkills(skills: string): (r: seq<string>)
    ensures forall k :: 0 <= k < |r| ==> r[k] != "" && Trimmed(r[k])
    ensures |r| <= Occurrences(skills, ',') + 1
    ensures Seqs.IsSubseq(r, TrimAll(Split(skills, ',')))
    ensures forall x :: multiset(r)[x] == if x != "" then multiset(TrimAll(Split(skills, ',')))[x] else 0
  {
    var trimmed := TrimAll(Split(skills, ','));
    Seqs.FilterCount(trimmed, NonEmpty);
    Seqs.Filter(trimmed, NonEmpty)
  }

  /** A list of trimmed, non-empty, comma-free skills typed with commas between
      them is parsed back to the same list. */
  lemma SkillsRoundTrip(skills: seq<string>)
    requires |skills| >= 1
    requires forall k :: 0 <= k < |skills| ==> skills[k] != "" && ',' !in skills[k] && Trim(skills[k]) == skills[k]
    ensures ParseSkills(Join(skills, ',')) == skills
  {
    SplitJoin(skills, ',');
    TrimAllFixed(skills);
    Seqs.FilterAll(skills, NonEmpty);
  }

  /** Pieces that are already trimmed come through `TrimAll` unchanged. */
  lemma TrimAllFixed(parts: seq<string>)
    requires forall k :: 0 <= k < |parts| ==> Trim(parts[k]) == parts[k]
    ensures TrimAll(parts) == parts
  {
  }

  /** `requirements.split('\n').filter(r => r.trim())`: blank lines are dropped,
      every copy of another line is kept as typed, untrimmed, in order. */
  function ParseRequirements(requirements: string): (r: seq<string>)
    ensures forall k :: 0 <= k < |r| ==> !IsBlank(r[k]) && '\n' !in r[k]
    ensures Seqs.IsSubseq(r, Split(requirements, '\n'))
    ensures forall x :: multiset(r)[x] == if !IsBlank(x) then multiset(Split(requirements, '\n'))[x] else 0
  {
    Seqs.FilterCount(Split(requirements, '\n'), NotBlank);
    Seqs.Filter(Split(requirements, '\n'), NotBlank)
  }

  /** The test `r => r.trim()`. */
  predicate NotBlank(x: string) {
    Trim(x) != ""
  }

  /** Non-blank lines typed one per line are parsed back to the same lines. */
  lemma RequirementsRoundTrip(lines: seq<string>)
    requires |lines| >= 1
    requires forall k :: 0 <= k < |lines| ==> !IsBlank(lines[k]) && '\n' !in lines[k]
    ensures ParseRequirements(Join(lines, '\n')) == lines
  {
    SplitJoin(lines, '\n');
    Seqs.FilterAll(lines, NotBlank);
  }

  /** The body sent to `api.createJob`. */
  datatype JobPayload = JobPayload(
    title: string,
    company: string,
    location: string,
    jobType: string,
    experience: string,
    salary: string,
    description: string,
    requirements: seq<string>,
    skills: seq<string>,
    postedBy: Option<Id>)

  /** `{...jobForm, skills, requirements, postedBy: user._id}`; `userId` is the
      page's `user._id`, which may be absent. */
  function BuildPayload(form: JobForm, userId: Option<Id>): (p: JobPayload)
    ensures p.title == form.title && p.company == form.company && p.location == form.location
    ensures p.jobType == form.jobType && p.experience == form.experience
    ensures p.salary == form.salary && p.description == form.description
    ensures p.skills == ParseSkills(form.skills) && p.requirements == ParseRequirements(form.requirements)
    ensures p.postedBy == userId
  {
    JobPayload(form.title, form.company, form.location, form.jobType, form.experience, form.salary,
               form.description, ParseRequirements(form.requirements), ParseSkills(form.skills), userId)
  }

  /** The default form sends no skills and no requirements. */
  lemma DefaultFormSendsNoLists(userId: Option<Id>)
    ensures BuildPayload(DefaultForm, userId).skills == []
    ensures BuildPayload(DefaultForm, userId).requirements == []
  {
    assert Split("", ',') == [""];
    assert Split("", '\n') == [""];
  }

  /** The state of the page around the form. */
  datatype PageState = PageState(form: JobForm, showAddJob: bool, isLoading: bool, error: string)

  /** How `api.createJob` settled: created, or rejected with an error whose
      message may be empty. */
  datatype CreateOutcome = CreateOk | CreateFailed(message: string)

  /** `handleAddJob`: the payload it sends and the state once the request has
      settled. Success closes the modal and resets the form; failure keeps the
      form and modal and shows the error's message, or a fallback when it has
      none. Loading is off either way. */
  function AddJob(st: PageState, userId: Option<Id>, outcome: CreateOutcome): (r: (JobPayload, PageState))
    ensures r.0 == BuildPayload(st.form, userId)
    ensures !r.1.isLoading
    ensures outcome.CreateOk? ==> r.1 == PageState(DefaultForm, false, false, "")
    ensures outcome.CreateFailed? ==>
              && r.1.form == st.form && r.1.showAddJob == st.showAddJob
              && r.1.error == (if outcome.message != "" then outcome.message else "Failed to create job")
    ensures r.1.error == "" <==> outcome.CreateOk?
  {
    var payload := BuildPayload(st.form, userId);
    match outcome
    case CreateOk => (payload, PageState(DefaultForm, false, false, ""))
    case CreateFailed(m) => (payload, st.(isLoading := false, error := if m != "" then m else "Failed to create job"))
  }

  /** Retrying after a failure sends the same payload again. */
  lemma RetrySendsSamePayload(st: PageState, userId: Option<Id>, message: string, outcome: CreateOutcome)
    ensures AddJob(AddJob(st, userId, CreateFailed(message)).1, userId, outcome).0 == AddJob(st, userId, outcome).0
  {
  }
}
