/** The persisted records the routes read and write (users, jobs, applications,
    interview sessions), their closed string enumerations, and the in-memory
    database that stands in for the document store. */
module Records {
  import opened Wrappers
  import Seqs

  /** A document id; two ids name the same document exactly when they are equal. */
  type Id = nat

  /** `User.role` (backend/models/User.js line 8). */
  datatype Role = Student | Recruiter | Admin

  function RoleName(r: Role): string {
    match r
    case Student => "student"
    case Recruiter => "recruiter"
    case Admin => "admin"
  }

  /** The schema's enum check on a role string. */
  function ParseRole(s: string): (r: Option<Role>)
    ensures r.Some? ==> RoleName(r.value) == s
    ensures r.None? ==> s !in {"student", "recruiter", "admin"}
  {
    if s == "student" then Some(Student)
    else if s == "recruiter" then Some(Recruiter)
    else if s == "admin" then Some(Admin)
    else None
  }

  /** `Application.status` (backend/models/Application.js line 6). */
  datatype AppStatus = Submitted | Interview | Offer | Rejected

  function StatusName(s: AppStatus): string {
    match s
    case Submitted => "submitted"
    case Interview => "interview"
    case Offer => "offer"
    case Rejected => "rejected"
  }

  /** Membership in the closed list of the four status strings. */
  function ParseStatus(s: string): (r: Option<AppStatus>)
    ensures r.Some? ==> StatusName(r.value) == s
    ensures r.None? <==> s !in {"submitted", "interview", "offer", "rejected"}
  {
    if s == "submitted" then Some(Submitted)
    else if s == "interview" then Some(Interview)
    else if s == "offer" then Some(Offer)
    else if s == "rejected" then Some(Rejected)
    else None
  }

  /** Every status name parses back to its status. */
  lemma StatusRoundTrip(s: AppStatus)
    ensures ParseStatus(StatusName(s)) == Some(s)
  {
  }

  /** Every role name parses back to its role. */
  lemma RoleRoundTrip(r: Role)
    ensures ParseRole(RoleName(r)) == Some(r)
  {
  }

  /** `Job.type` (backend/models/Job.js line 7). */
  datatype JobType = FullTime | Contract | PartTime | Internship

  function JobTypeName(t: JobType): string {
    match t
    case FullTime => "Full-time"
    case Contract => "Contract"
    case PartTime => "Part-time"
    case Internship => "Internship"
  }

  function ParseJobType(s: string): (r: Option<JobType>)
    ensures r.Some? ==> JobTypeName(r.value) == s
    ensures r.None? ==> s !in {"Full-time", "Contract", "Part-time", "Internship"}
  {
    if s == "Full-time" then Some(FullTime)
    else if s == "Contract" then Some(Contract)
    else if s == "Part-time" then Some(PartTime)
    else if s == "Internship" then Some(Internship)
    else None
  }

  datatype Job = Job(
    id: Id,
    title: string,
    company: string,
    location: Option<string>,
    jobType: JobType,
    salary: Option<string>,
    remote: bool,
    tags: seq<string>,
    category: Option<string>,
    urgent: bool,
    verified: bool,
    description: Option<string>,
    postedBy: Option<Id>,
    postedAt: int)

  datatype Application = Application(
    id: Id,
    user: Id,
    job: Id,
    status: AppStatus,
    notes: Option<string>,
    createdAt: int)

  datatype User = User(
    id: Id,
    username: string,
    email: string,
    passwordHash: string,
    role: Role,
    savedJobs: seq<Id>)

  /** One stored interview message (backend/models/InterviewSession.js lines 3-8). */
  datatype SessionMessage = SessionMessage(speaker: Speaker, message: string, phase: Option<string>, timestamp: int)

  datatype Speaker = AiSpeaker | UserSpeaker

  /** Candidate profile fields of an interview session; all optional strings. */
  datatype SessionProfile = SessionProfile(
    role: Option<string>,
    experience: Option<string>,
    company: Option<string>,
    focus: Option<string>,
    industry: Option<string>,
    skills: Option<string>)

  /** One persisted interview session (backend/models/InterviewSession.js lines 10-26). */
  datatype SessionRecord = SessionRecord(
    sessionId: Option<string>,
    user: Option<Id>,
    userProfile: SessionProfile,
    interviewPhase: string,
    topics: seq<string>,
    questionCount: int,
    difficulty: string,
    messages: seq<SessionMessage>)

  /** The collections of the document store. */
  datatype Db = Db(
    users: seq<User>,
    jobs: seq<Job>,
    applications: seq<Application>,
    sessions: seq<SessionRecord>)

  /** An id larger than the id of every record in `xs`, hence the id of none
      of them; `id` reads a record's id. */
  function NextId<T>(xs: seq<T>, id: T -> Id): (r: Id)
    ensures forall i :: 0 <= i < |xs| ==> id(xs[i]) < r
    decreases |xs|
  {
    if |xs| == 0 then 0
    else
      var m := NextId(xs[1..], id);
      assert forall i :: 1 <= i < |xs| ==> xs[i] == xs[1..][i - 1];
      if id(xs[0]) < m then m else id(xs[0]) + 1
  }

  /** `Job.findById(id)`. */
  function FindJob(jobs: seq<Job>, id: Id): (r: Option<Job>)
    ensures r.Some? ==> r.value in jobs && r.value.id == id
    ensures r.None? <==> forall k :: 0 <= k < |jobs| ==> jobs[k].id != id
  {
    Seqs.Find(jobs, (j: Job) => j.id == id)
  }

  /** `User.findById(id)`. */
  function FindUser(users: seq<User>, id: Id): (r: Option<User>)
    ensures r.Some? ==> r.value in users && r.value.id == id
    ensures r.None? <==> forall k :: 0 <= k < |users| ==> users[k].id != id
  {
    Seqs.Find(users, (u: User) => u.id == id)
  }
}
