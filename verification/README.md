# Job board decision rules, in Dafny

A model of the small, pure decision rules of a job-board web application. It
covers the Express REST handlers and middleware (`backend/`) and the React
components that call them (`src/`). The model includes:

- who may create, change or delete a job;
- how the job listing filter is built from the query string, and how the
  listing is ordered and paged;
- applying to a job, listing applications, and changing an application's
  status;
- saving and unsaving jobs;
- the dashboard summary and the statistics the dashboard computes;
- registration, login and the bearer-token middleware;
- the browser's HTTP client;
- the client-side search, pagination and save toggle of the job board;
- the recruiter's "post a job" form, the sign-up form, and the interview
  set-up form with its countdown;
- the three screens of the interview hub and the chat handlers of the
  interview page.

The document store is a value `Records.Db` holding sequences of users, jobs,
applications and interview sessions. Each handler is a function from the
database, the authenticated caller and the request fields to a
`Reply` (status code plus body or error text) and the database after the call.
Each React handler is a function from the component state to the next state,
together with whatever it sends.

Anything the code cannot decide by itself becomes a parameter:

- bcrypt hashing and comparison;
- JWT signing and verification;
- `JSON.parse`;
- URL encoding;
- `Date.now()`;
- how `fetch` settled.

The behaviour modelled is the behaviour of the code as written. The model
keeps the code's quirks and states each one as a lemma:

- **Save buttons disagree.** The job board's Save button and the star and
  detail-panel buttons toggle different keys (`job._id` vs `job.id`), so they
  disagree (`JobsView.SaveKeysDisagree`).
- **The interview screen is unreachable.** The interview hub hands the set-up
  form an `onComplete` callback, but the form calls `onStartInterview`, so the
  hub's interview screen is never reached
  (`InterviewStages.WiredNeverInterviews`).
- **The session id is never stored.** The chat page never stores a session
  id, so every message it emits carries none
  (`InterviewChat.SessionIdNeverSet`).
- **The conflict message is never shown.** The sign-up page looks for "409" in
  the error text. The server's conflict message has no digits, so the
  "already exists" message is never shown
  (`Wiring.ConflictShownAsGenericFailure`).
- **The dashboard always shows zeros.** The summary endpoint returns counts
  only, while the dashboard reads lists, so its statistics are all zero
  (`Wiring.DashboardShowsZeros`).
- **Deleting a job leaves its applications behind.** A later status change on
  one of them answers 500 (`Wiring.StatusUpdateAfterJobDeleted`).
- **A job update can change the poster.** `PUT /jobs/:id` copies the whole
  body onto the job, so a poster can hand a job to someone else and lose the
  right to change it (`JobRoutes.PatchHandsJobOver`).
- **The recruiter's skills are dropped.** The recruiter form sends skills and
  requirements, which the job schema does not have, so they are dropped
  (`Wiring.RecruiterSkillsDropped`).

Two facts about the code are worth stating plainly:

- The server's text search also matches the job's location; the board's
  in-memory search does not (`Wiring.BoardNarrowsServer`).
- The summary's `successRate` is the share of the caller's applications whose
  status is 'offer' (`DashboardSummary.Summarize`).

Modules, one per file:

| Module | Contents |
|---|---|
| `Wrappers` | `Option` and `Reply` |
| `Text` | JavaScript string built-ins |
| `Seqs` | filter, find and a stable descending sort |
| `Records` | schemas and the database |
| `Applications`, `JobRoutes`, `SavedJobs`, `DashboardSummary`, `AuthRoutes`, `AuthMiddleware` | the server |
| `ApiClient`, `JobsView`, `DashboardView`, `RecruiterForm`, `Signup`, `PreInterview`, `InterviewStages`, `InterviewChat` | the browser |
| `Wiring` | properties that span the browser and the server |

## Model

| member | source | states |
|---|---|---|
| Records.ParseRole | backend/models/User.js:8 | a role string is accepted exactly when it is one of the three enum values, and maps back to that value |
| Records.RoleRoundTrip | backend/models/User.js:8 | every role's stored name is accepted as that role |
| Records.ParseStatus | backend/models/Application.js:6 | a status string is accepted exactly when it is one of the four enum values |
| Records.StatusRoundTrip | backend/models/Application.js:6 | every status's stored name is accepted as that status |
| Records.ParseJobType | backend/models/Job.js:7 | a job type is accepted only when it is one of the four enum values |
| Records.FindJob | backend/routes/jobs.js:45 | `findById` finds a stored job with that id, and finds nothing exactly when no job has it |
| Applications.Apply | backend/routes/applications.js:8-41 | 404 for an unknown job; 400 when the caller already applied; otherwise exactly one new 'submitted' application of the caller to the job, with a fresh id, is appended, and it is the only one for that pair |
| Applications.ApplyKeepsUniquePairs | backend/routes/applications.js:19-30 | one apply keeps at most one application per (user, job) pair |
| Applications.ApplyAllKeepsUniquePairs | backend/routes/applications.js:19-30 | any sequence of applies keeps at most one application per (user, job) pair |
| Applications.NewestFirst | backend/routes/applications.js:58-61 | the result holds exactly the stored applications meeting the query, as a permutation of them, newest first |
| Applications.ListForJob | backend/routes/applications.js:44-68 | 404 for an unknown job; 403 when it was posted by someone else; succeeds exactly for the job's poster, with every copy of each of the job's applications and nothing else, newest first; a job without a poster makes the check throw (500) |
| Applications.MyApplications | backend/routes/applications.js:71-82 | every copy of each of the caller's applications and nothing else, newest first |
| Applications.UpdateStatus | backend/routes/applications.js:85-116 | an invalid status is a 400 before any lookup; an unknown application is a 404; it succeeds exactly when the application's job exists and was posted by the caller; only that application's status changes |
| Applications.UpdateByNonPosterForbidden | backend/routes/applications.js:99-102 | a status change on an application of someone else's job is refused with 403 and changes nothing |
| Applications.UpdateKeepsUniquePairs | backend/routes/applications.js:104-105 | status updates keep at most one application per (user, job) pair |
| JobRoutes.SentinelParam | backend/routes/jobs.js:19-20 | a category or type parameter constrains exactly when it is present, non-empty and not 'All' |
| JobRoutes.BuildFilter | backend/routes/jobs.js:9-23 | the text search is on exactly when `q` is non-empty; each flag is on exactly when its parameter is the string 'true' |
| JobRoutes.UnconstrainedMatchesAll | backend/routes/jobs.js:10 | the empty filter matches every job |
| JobRoutes.CategoryAllIsNoConstraint | backend/routes/jobs.js:19 | category=All builds the same filter as no category parameter |
| JobRoutes.TypeAllIsNoConstraint | backend/routes/jobs.js:20 | type=All builds the same filter as no type parameter |
| JobRoutes.RemoteOnlyTrueConstrains | backend/routes/jobs.js:21 | any remote value other than 'true' builds the same filter as none |
| JobRoutes.EmptyQueryUnconstrained | backend/routes/jobs.js:9-23 | a request without parameters builds the empty filter |
| JobRoutes.Ranked | backend/routes/jobs.js:27 | the matching jobs with their multiplicities and nothing else, newest posting first |
| JobRoutes.Window | backend/routes/jobs.js:25-27 | `skip(n).limit(m)` yields consecutive ranked jobs starting at position n, at most the limit (0 meaning no limit), and all the remaining ones when they fit |
| JobRoutes.ListJobs | backend/routes/jobs.js:8-31 | there is a reply exactly when the skip is non-negative; the total counts every match; the items are the page of the newest-first matches, at most page size long; every item matches the filter |
| JobRoutes.DefaultPaging | backend/routes/jobs.js:9 | without paging parameters the reply is page 1 of size 50 and starts at the newest match |
| JobRoutes.CreateJob | backend/routes/jobs.js:34-42 | a student gets 403 and nothing changes; the create succeeds exactly for a recruiter or admin whose body passes the schema's checks, and appends one job posted by the caller, with a fresh id |
| JobRoutes.GetJob | backend/routes/jobs.js:44-48 | found exactly when a job has that id, otherwise 404 |
| JobRoutes.Assign | backend/routes/jobs.js:55-56 | the patched job keeps its id and posting time, takes every field the body gives, including a new poster, and is rejected exactly when title, company or type fail the schema |
| JobRoutes.UpdateJob | backend/routes/jobs.js:50-61 | 404 for an unknown job; 403 unless the caller is the poster or an admin; for a permitted caller, 400 exactly when the patched job fails validation, otherwise a 200 with the patched job, which replaces that job and nothing else |
| JobRoutes.PatchHandsJobOver | backend/routes/jobs.js:54-55 | a body naming another poster locks the original non-admin poster out of the job |
| JobRoutes.DeleteJob | backend/routes/jobs.js:63-69 | 404 for an unknown job; 403 unless the caller is the poster or an admin; on success every copy of each job with another id remains, in order, and none with that id |
| JobRoutes.DeleteThenGetNotFound | backend/routes/jobs.js:44-48 | after a delete, fetching the job answers 404 |
| SavedJobs.Save | backend/routes/user.js:12-19 | the id is in the list afterwards; it is appended only when absent; the list stays duplicate-free |
| SavedJobs.Unsave | backend/routes/user.js:21-26 | every copy of each other id remains, in order, and no copy of the unsaved id |
| SavedJobs.SaveIdempotent | backend/routes/user.js:14-16 | saving twice equals saving once |
| SavedJobs.UnsaveAbsent | backend/routes/user.js:23 | unsaving an id that is not saved changes nothing |
| SavedJobs.SaveThenUnsave | backend/routes/user.js:12-26 | saving a new id and then unsaving it restores the list |
| DashboardSummary.RoundedPercent | backend/routes/dashboard.js:17 | the result is the integer nearest to 100·part/whole, halves rounding up, between 0 and 100; it is 0 for an empty whole |
| DashboardSummary.RoundingBounds | backend/routes/dashboard.js:17 | (200·part + whole) div (2·whole) lies within half a unit of the exact percentage |
| DashboardSummary.ApplicationsOf | backend/routes/dashboard.js:12 | every copy of each of the caller's applications and nothing else, in stored order |
| DashboardSummary.SessionsOf | backend/routes/dashboard.js:13 | every copy of each of the caller's interview sessions and nothing else, in stored order |
| DashboardSummary.OfferCount | backend/routes/dashboard.js:17 | the count is zero exactly when no application is an offer |
| DashboardSummary.Summarize | backend/routes/dashboard.js:9-24 | the counts are the caller's applications and sessions; the success rate is the rounded share of offers, and 0 without applications; recommended jobs are the first six stored jobs |
| DashboardSummary.SuccessRateExtremes | backend/routes/dashboard.js:17 | a caller whose applications are all offers has rate 100; one with none has rate 0 |
| AuthMiddleware.BearerToken | backend/middleware/auth.js:9 | the token is the space-free run right after "Bearer ", ending at the next space or at the end |
| AuthMiddleware.BearerTokenRoundTrip | backend/middleware/auth.js:6-9 | a header "Bearer " + token (+ anything starting with a space) yields the token back |
| AuthMiddleware.Authenticate | backend/middleware/auth.js:4-18 | a missing, empty or non-Bearer header is rejected first; a request is accepted exactly when the token verifies to the id of a stored user, who is then loaded without the password hash; otherwise the reason is one of the three messages |
| AuthMiddleware.SignedTokenAccepted | backend/middleware/auth.js:9-14 | a bearer token that verifies to a stored user's id gets through as that user |
| AuthRoutes.Register | backend/routes/auth.js:12-29 | 400 without username, email or password; 409 when the username or the lower-cased email is taken; 500 for a role outside the enum; otherwise exactly one user is appended, with a fresh id, lower-cased email, the password's hash and the default role 'student' |
| AuthRoutes.RegisterKeepsUniqueAccounts | backend/routes/auth.js:19-22 | registration keeps usernames and emails unique |
| AuthRoutes.Login | backend/routes/auth.js:32-45 | 400 without username or password; otherwise any failure is the one 401, and success holds exactly when the first user with that username exists and the password matches its hash, replying with that user's token and details |
| AuthRoutes.RegisterThenLogin | backend/routes/auth.js:12-41 | a fresh registration can log in with the same password and gets the same account, with its email lower-cased |
| ApiClient.AuthHeader | src/services/api.js:3-6 | the header is sent exactly when a non-empty token is stored, as "Bearer " + token |
| ApiClient.ParsedBody | src/services/api.js:23-33 | the body is parsed only when the content type mentions JSON and the body is non-empty |
| ApiClient.ErrorMessage | src/services/api.js:36 | the message is the body's error, else its message, else the raw body, else "Request failed with status N"; it is never empty |
| ApiClient.Request | src/services/api.js:8-43 | a network failure is rethrown with a prefix; a non-2xx response always throws an error carrying its status, its message and the parsed body's `details`, and only such a response does; a non-empty 2xx body gives its parsed JSON or throws a syntax error when it is not JSON; an empty 2xx body gives an empty object |
| ApiClient.ServerErrorSurfaces | src/services/api.js:35-41 | a server's JSON error reply surfaces with exactly its error text and status |
| ApiClient.QueryString | src/services/api.js:50 | the query string is empty exactly when there are no parameters |
| ApiClient.ListJobsPath | src/services/api.js:49-52 | the path is '/jobs' exactly when there are no parameters, otherwise '/jobs?' followed by the query string |
| JobsView.RelativeTime | src/components/portal/components/JobsView.jsx:3-15 | empty exactly for a missing or invalid date; 'Today' for zero or negative days; '1 day ago'; '1 week ago' for 7 to 13 days |
| JobsView.RelativeTimeDays | src/components/portal/components/JobsView.jsx:11 | for 2 to 6 days the label's digits read back the exact day count |
| JobsView.RelativeTimeWeeks | src/components/portal/components/JobsView.jsx:12-14 | from 14 days on the label shows N weeks with 7N ≤ days < 7N+7 and N ≥ 2 |
| JobsView.Filtered | src/components/portal/components/JobsView.jsx:86-98 | every copy of each loaded job meeting all six conditions and nothing else, in loaded order |
| JobsView.DefaultSearchKeepsAll | src/components/portal/components/JobsView.jsx:86-98 | the default controls hide no job |
| JobsView.TotalPages | src/components/portal/components/JobsView.jsx:100 | at least one page, and just enough pages of six for the list |
| JobsView.Paged | src/components/portal/components/JobsView.jsx:101 | at most six jobs, the ones at positions 6(p−1) up to 6p of the list |
| JobsView.PagesFromCover | src/components/portal/components/JobsView.jsx:100-101 | the pages from p to the last, laid end to end, are the list from page p's first position |
| JobsView.PagesCoverFiltered | src/components/portal/components/JobsView.jsx:100-101 | all pages laid end to end are exactly the filtered list: nothing skipped or repeated |
| JobsView.PrevPage | src/components/portal/components/JobsView.jsx:399 | never below 1, and one back when possible |
| JobsView.NextPage | src/components/portal/components/JobsView.jsx:421 | never past the last page, and one on when possible |
| JobsView.NavigationStaysInRange | src/components/portal/components/JobsView.jsx:399-421 | from a page in range, both buttons keep the page in range |
| JobsView.ToggleSave | src/components/portal/components/JobsView.jsx:103-105 | the key's membership flips and no other key changes |
| JobsView.ToggleTwice | src/components/portal/components/JobsView.jsx:103-105 | toggling twice restores the saved set |
| JobsView.SaveKeysDisagree | src/components/portal/components/JobsView.jsx:364-374 | the card's button flips its label but never its star; the detail button flips the star of every job but no card's label |
| DashboardView.StatusCount | src/components/portal/components/DashboardView.jsx:40-41 | the count is zero exactly when no entry has that status |
| DashboardView.AnsweredCount | src/components/portal/components/DashboardView.jsx:42 | the non-pending entries are all but the pending ones |
| DashboardView.StatusPartition | src/components/portal/components/DashboardView.jsx:38-41 | active, offer and rejected applications add up to all applications |
| DashboardView.ComputeStats | src/components/portal/components/DashboardView.jsx:31-44 | five zeros without data; a missing list counts as empty; the active, offer and rejected counts partition the total; the response rate is the rounded share of non-pending applications, and 0 without applications |
| DashboardView.StatusTone | src/components/portal/components/DashboardView.jsx:46-54 | gray exactly for a status other than the four known ones |
| DashboardView.InterviewTypeTone | src/components/portal/components/DashboardView.jsx:56-63 | gray exactly for a type other than the three known ones |
| DashboardView.StatusTonesDistinct | src/components/portal/components/DashboardView.jsx:46-54 | the four known statuses and the fallback have five different colours |
| Text.Trim | src/components/RecruiterPage/RecruiterPage.jsx:74 | `trim` leaves a piece that neither starts nor ends with ECMAScript white space, and empty exactly when the input is all white space |
| Text.TrimIsInfix | src/components/RecruiterPage/RecruiterPage.jsx:74 | the trimmed text is a contiguous piece of the input with only white space before and after it |
| Text.TrimIdempotent | src/components/RecruiterPage/RecruiterPage.jsx:74 | trimming an already trimmed text changes nothing |
| RecruiterForm.ParseSkills | src/components/RecruiterPage/RecruiterPage.jsx:74 | the skills are the trimmed comma-separated pieces in order, every copy of a non-empty piece kept and every empty one dropped, at most one more than the number of commas |
| RecruiterForm.SkillsRoundTrip | src/components/RecruiterPage/RecruiterPage.jsx:74 | trimmed, non-empty, comma-free skills joined with commas parse back to the same list |
| RecruiterForm.ParseRequirements | src/components/RecruiterPage/RecruiterPage.jsx:75 | the requirements are the lines in order, every copy of a non-blank line kept untrimmed and every blank one dropped |
| RecruiterForm.RequirementsRoundTrip | src/components/RecruiterPage/RecruiterPage.jsx:75 | non-blank lines joined with newlines parse back to the same lines |
| RecruiterForm.BuildPayload | src/components/RecruiterPage/RecruiterPage.jsx:72-77 | the form's text fields are sent as typed, with the parsed lists and the page's user id |
| RecruiterForm.DefaultFormSendsNoLists | src/components/RecruiterPage/RecruiterPage.jsx:10-20 | the initial form sends no skills and no requirements |
| RecruiterForm.AddJob | src/components/RecruiterPage/RecruiterPage.jsx:66-97 | success closes the modal and resets the form to its defaults; failure keeps them and shows the error's message or the fallback; an error is shown exactly on failure; loading ends either way |
| RecruiterForm.RetrySendsSamePayload | src/components/RecruiterPage/RecruiterPage.jsx:93-95 | after a failure, retrying sends the same payload |
| Signup.ApplyRoleParam | src/components/LoginPage/SignupPage.jsx:19-24 | the role parameter is applied exactly when it is 'student' or 'recruiter' |
| Signup.RoleParamNeverAdmin | src/components/LoginPage/SignupPage.jsx:8-24 | the URL can only select a student or recruiter account |
| Signup.Utf16Length | src/components/LoginPage/SignupPage.jsx:51 | `length` counts between one and two units per character |
| Signup.Validate | src/components/LoginPage/SignupPage.jsx:39-55 | the first failing check decides the message; the form passes exactly when all three fields are non-blank, the passwords are equal and at least six units long |
| Signup.SixCharactersSuffice | src/components/LoginPage/SignupPage.jsx:51 | six characters always pass the length check |
| Signup.MapRegisterError | src/components/LoginPage/SignupPage.jsx:78-80 | '409' in the message gives the duplicate text, else '400' the invalid-input text, else the raw message with a prefix |
| Signup.Submit | src/components/LoginPage/SignupPage.jsx:33-84 | register is called exactly when validation passes, with the fields as typed; a token is stored exactly on success; a failure shows the mapped message |
| Signup.InvalidFormIndependentOfServer | src/components/LoginPage/SignupPage.jsx:39-55 | an invalid form's outcome does not depend on the server |
| PreInterview.Set | src/components/InterviewPage/PreInterviewSetup.jsx:54-57 | the named field takes the value and no other field changes |
| PreInterview.ValidateForm | src/components/InterviewPage/PreInterviewSetup.jsx:68-85 | each required field has its message exactly when it is blank (the experience level: empty); optional fields never have one; the form is valid exactly when no message exists |
| PreInterview.OptionalFieldsIrrelevant | src/components/InterviewPage/PreInterviewSetup.jsx:68-85 | changing skills, industry or focus never changes the validation |
| PreInterview.InputChange | src/components/InterviewPage/PreInterviewSetup.jsx:52-66 | the field takes the value; its error, if any, becomes empty; other errors and fields are unchanged |
| PreInterview.FixOneFieldKeepsOthers | src/components/InterviewPage/PreInterviewSetup.jsx:60-65 | typing into one field leaves the other fields' messages standing |
| PreInterview.StartCountdown | src/components/InterviewPage/PreInterviewSetup.jsx:87-94 | an invalid form only shows its messages; a valid one starts the countdown at 5 |
| PreInterview.InvalidNeverStarts | src/components/InterviewPage/PreInterviewSetup.jsx:88-90 | a form with a blank required field never starts the countdown |
| PreInterview.Tick | src/components/InterviewPage/PreInterviewSetup.jsx:95-103 | the callback fires exactly when the counter is at most 1, leaving it at 0; otherwise the counter drops by one |
| PreInterview.RunTicksFromCount | src/components/InterviewPage/PreInterviewSetup.jsx:95-104 | from counter c, the callback has fired once after c or more ticks and never before |
| PreInterview.FiresOnceAfterFive | src/components/InterviewPage/PreInterviewSetup.jsx:91-104 | a started countdown calls the callback exactly once, on the fifth tick |
| InterviewStages.Step | src/components/portal/components/InterviewView.jsx:9-21 | each handler sets the stage; completing set-up stores the data; ending clears it |
| InterviewStages.StepKeepsConsistent | src/components/portal/components/InterviewView.jsx:9-21 | every offered event keeps the set-up data present exactly during an interview |
| InterviewStages.RunKeepsConsistent | src/components/portal/components/InterviewView.jsx:9-21 | any run of offered events keeps that consistency |
| InterviewStages.DesignedPathReachesInterview | src/components/portal/components/InterviewView.jsx:9-16 | starting set-up and completing it reaches the interview with the form's data |
| InterviewStages.WiredNeverInterviews | src/components/portal/components/InterviewView.jsx:64 | with the callback passed as `onComplete`, no run of events ever reaches the interview screen |
| InterviewChat.SendMessage | src/components/InterviewPage/InterviewPage.jsx:182-202 | blank text or no socket does nothing; otherwise exactly one user message with the trimmed text and current phase is appended and the same non-empty text is emitted |
| InterviewChat.SpeechResult | src/components/InterviewPage/InterviewPage.jsx:204-208 | a speech result behaves as sending its transcript |
| InterviewChat.AiResponse | src/components/InterviewPage/InterviewPage.jsx:39-59 | one interviewer message is appended, the phase becomes the reply's, typing stops, the session is untouched |
| InterviewChat.SocketError | src/components/InterviewPage/InterviewPage.jsx:61-64 | the message is shown, typing stops, the transcript is untouched |
| InterviewChat.SessionIdNeverSet | src/components/InterviewPage/InterviewPage.jsx:12 | from a page without a session id, no event sets one and every emitted message carries none |
| InterviewChat.PhaseDisplayOf | src/components/InterviewPage/InterviewPage.jsx:222-232 | known phases get their own labels; an inherited object key gives an inherited value; every other phase shows the introduction label |
| InterviewChat.KnownPhasesDistinct | src/components/InterviewPage/InterviewPage.jsx:223-230 | the six known phases have six different labels |
| Wiring.SearchParams | src/components/portal/components/JobsView.jsx:39 | the board always passes its six controls as parameters |
| Wiring.SearchAlwaysHasQueryString | src/services/api.js:49-52 | the board's listing request always carries a query string |
| Wiring.DefaultSearchUnconstrained | backend/routes/jobs.js:19-23 | the board's default controls reach the server as no constraint |
| Wiring.BoardNarrowsServer | src/components/portal/components/JobsView.jsx:86-98 | every job the board shows also matches the server's filter for the same controls |
| Wiring.NoFourIsGenericFailure | src/components/LoginPage/SignupPage.jsx:78-80 | a message without the digit 4 is shown as a generic failure |
| Wiring.ConflictShownAsGenericFailure | backend/routes/auth.js:20 | the server's 409 reply reaches the sign-up page as a generic failure, never as "already exists" |
| Wiring.StoredTokenReadBack | backend/middleware/auth.js:9 | the token the client sends is the token the middleware reads |
| Wiring.DashboardShowsZeros | src/components/portal/components/DashboardView.jsx:31-44 | fed the summary endpoint's counts-only reply, the dashboard shows five zeros |
| Wiring.RecruiterSkillsDropped | backend/models/Job.js:3-18 | a job posted from the recruiter form is stored without tags and as posted by the caller, whatever was typed or sent as poster |
| Wiring.StatusUpdateAfterJobDeleted | backend/routes/jobs.js:63-69 | after its job is deleted, a status change on an application answers 500 |

## Left out

- Network, sockets, timers and the React rendering are left out. A handler's
  effect is given as the state it produces once its awaits have settled.
  Concurrent requests and races between them are not modelled.
- Speech recognition, speech synthesis, the webcam and the typing animation
  are left out, because they are browser I/O.
- The interview engine is not part of this model. This covers
  `apiRoutes.js`, the socket server in `server.js`, and the seed and
  clear-database scripts.
- The interview page's `start-interview` emission and its profile hand-off are
  left out. Only the chat handlers are modelled.
- The HTTP routes for the current user and the saved-jobs listing
  (`GET /users/me`, `GET /users/saved-jobs`) are left out. They only echo or
  populate stored data.
- The `populate` calls of the application routes are left out. Replies carry
  the stored application, not the joined user and job fields.
- The 500 replies of the `catch` blocks are not modelled when they come from
  store failures. Two 500 paths that come from the code itself are modelled:
  a job without a poster, and an application whose job is gone.
- Malformed ids are not modelled. A malformed id makes the store throw
  (answered 500, or not at all on the routes without `catch`); ids here are
  plain numbers.
- `JobRoutes.ListJobs` takes `page` and `pageSize` as numbers. `Number()`
  parsing of the query string, including `NaN`, is not modelled.
- `JobRoutes.TextMatches` treats `q` as a literal substring matched ignoring
  case. Regular-expression metacharacters in `q` are not interpreted.
- `JobRoutes.JobDraft` holds the schema's fields only. Extra body fields on
  create, such as `logo`, `_id` and `postedAt`, are not modelled.
- `JobRoutes.JobPatch` holds the schema's fields and `postedBy` only. A body
  that overwrites `_id` or `postedAt` is not modelled.
- `Text.ToLower` lower-cases ASCII letters only. It differs from JavaScript's
  `toLowerCase` outside ASCII.
- `DashboardSummary.RoundedPercent` works in exact integers: (200·part +
  whole) div (2·whole). It is the mathematically rounded percentage, halves
  up. JavaScript's floating-point `Math.round(part / whole * 100)` can differ
  from it by one, for example where the quotient lands a hair below a half.
- JSON fields that are not strings (numbers, objects, `null`) are not modelled.
  They are treated as missing.
- bcrypt hashing and comparison, and JWT signing and verification, are
  parameters. Token expiry is part of `verify`.
- URL encoding and `JSON.parse` are parameters.
- The sign-up page's `onSignup` callback and navigation are left out.
- The dashboard's other tabs and their fetches are left out.
- The login page is not part of this model.
