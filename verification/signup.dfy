/** The sign-up form (src/components/LoginPage/SignupPage.jsx): the role taken
    from the URL, the validation chain run before registering, and the mapping
    of a failed registration to the message shown. */
module Signup {
  import opened Wrappers
  import opened Text

  datatype SignupForm = SignupForm(username: string, email: string, password: string,
                                   confirmPassword: string, role: string)

  const InitialForm := SignupForm("", "", "", "", "student")

  /** The `role` query parameter is taken only when it is 'student' or 'recruiter'. */
  function ApplyRoleParam(form: SignupForm, roleParam: Option<string>): (r: SignupForm)
    ensures roleParam in {Some("student"), Some("recruiter")} ==> r == form.(role := roleParam.value)
    ensures roleParam !in {Some("student"), Some("recruiter")} ==> r == form
  {
    if Truthy(roleParam) && (roleParam.value == "student" || roleParam.value == "recruiter") then
      form.(role := roleParam.value)
    else form
  }

  /** Starting from the initial form, the URL can only ever select a student or
      recruiter account. */
  lemma RoleParamNeverAdmin(roleParam: Option<string>)
    ensures ApplyRoleParam(InitialForm, roleParam).role in {"student", "recruiter"}
  {
  }

  /** `String.prototype.length`: UTF-16 code units, two for a character beyond
      the Basic Multilingual Plane. */
  function Utf16Length(s: string): (n: nat)
    ensures |s| <= n <= 2 * |s|
  {
    if |s| == 0 then 0 else (if s[0] as int > 0xFFFF then 2 else 1) + Utf16Length(s[1..])
  }

  const RequiredMessage := "All fields are required."
  const MismatchMessage := "Passwords do not match."
  const ShortMessage := "Password must be at least 6 characters long."

  /** The three checks of `handleSubmit`, in order; the first failing one
      decides the message. Only the password's blankness is judged after
      trimming; the length and equality checks use the password as typed. */
  function Validate(form: SignupForm): (r: Option<string>)
    ensures IsBlank(form.username) || IsBlank(form.email) || IsBlank(form.password) ==> r == Some(RequiredMessage)
    ensures (!IsBlank(form.username) && !IsBlank(form.email) && !IsBlank(form.password)
             && form.password != form.confirmPassword) ==> r == Some(MismatchMessage)
    ensures r == Some(ShortMessage) <==>
              !IsBlank(form.username) && !IsBlank(form.email) && !IsBlank(form.password)
              && form.password == form.confirmPassword && Utf16Length(form.password) < 6
    ensures r.None? <==>
              !IsBlank(form.username) && !IsBlank(form.email) && !IsBlank(form.password)
              && form.password == form.confirmPassword && Utf16Length(form.password) >= 6
  {
    if Trim(form.username) == "" || Trim(form.email) == "" || Trim(form.password) == "" then Some(RequiredMessage)
    else if form.password != form.confirmPassword then Some(MismatchMessage)
    else if Utf16Length(form.password) < 6 then Some(ShortMessage)
    else None
  }

  /** A six-character password that passed the blank check is long enough. */
  lemma SixCharactersSuffice(form: SignupForm)
    requires !IsBlank(form.username) && !IsBlank(form.email) && !IsBlank(form.password)
    requires form.password == form.confirmPassword && |form.password| >= 6
    ensures Validate(form).None?
  {
  }

  /** The body sent to `api.register`: the fields as typed, untrimmed. */
  datatype RegisterBody = RegisterBody(username: string, email: string, password: string, role: string)

  /** `e.message.includes('409')`, then '400', then the raw message. */
  function MapRegisterError(message: string): (r: string)
    ensures Contains(message, "409") ==> r == "Username or email already exists"
    ensures !Contains(message, "409") && Contains(message, "400") ==> r == "Invalid input data"
    ensures !Contains(message, "409") && !Contains(message, "400") ==> r == "Registration failed: " + message
  {
    if Contains(message, "409") then "Username or email already exists"
    else if Contains(message, "400") then "Invalid input data"
    else "Registration failed: " + message
  }

  /** How the registration request settled. */
  datatype RegisterOutcome = Registered(token: string) | RegisterError(message: string)

  /** What submitting the form did: the request sent (if any), the error shown,
      and the token stored. */
  datatype SubmitResult = SubmitResult(sent: Option<RegisterBody>, error: string, storedToken: Option<string>)

  /** `handleSubmit`: register is called only when every check passes; its
      failure is shown through `MapRegisterError`, its success stores the token. */
  function Submit(form: SignupForm, outcome: RegisterOutcome): (r: SubmitResult)
    ensures r.sent.Some? <==> Validate(form).None?
    ensures r.sent.Some? ==> r.sent.value == RegisterBody(form.username, form.email, form.password, form.role)
    ensures Validate(form).Some? ==> r.error == Validate(form).value && r.storedToken.None?
    ensures Validate(form).None? && outcome.RegisterError? ==>
              r.error == MapRegisterError(outcome.message) && r.storedToken.None?
    ensures r.storedToken.Some? <==> Validate(form).None? && outcome.Registered?
    ensures r.storedToken.Some? ==> r.storedToken.value == outcome.token && r.error == ""
  {
    match Validate(form)
    case Some(e) => SubmitResult(None, e, None)
    case None =>
      var body := RegisterBody(form.username, form.email, form.password, form.role);
      match outcome
      case Registered(t) => SubmitResult(Some(body), "", Some(t))
      case RegisterError(m) => SubmitResult(Some(body), MapRegisterError(m), None)
  }

  /** An invalid form never reaches the server: the result does not depend on
      what the server would have answered. */
  lemma InvalidFormIndependentOfServer(form: SignupForm, a: RegisterOutcome, b: RegisterOutcome)
    requires Validate(form).Some?
    ensures Submit(form, a) == Submit(form, b)
  {
  }
}
