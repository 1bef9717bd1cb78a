/** How the browser and the server meet: what the job board's search sends and
    how the server reads it, what the sign-up page makes of the server's
    conflict reply, how the stored token passes the middleware, what the
    dashboard shows of the summary, what the server keeps of a recruiter's
    posting, and what a deleted job does to its applications. */
module Wiring {
  import opened Wrappers
  import opened Records
  import opened Text
  import Seqs
  import JobRoutes
  import JobsView
  import ApiClient
  import Signup
  import AuthMiddleware
  import Applications
  import DashboardSummary
  import DashboardView
  import RecruiterForm

  /** `${b}` for a boolean. */
  function BoolText(b: bool): string {
    if b then "true" else "false"
  }

  /** The parameters the job board passes to `api.listJobs`, in order. */
  function SearchParams(s: JobsView.Search): (ps: seq<(string, string)>)
    ensures |ps| == 6
  {
    [("q", s.query), ("category", s.category), ("type", s.jobType),
     ("remote", BoolText(s.remote)), ("urgent", BoolText(s.urgent)), ("verified", BoolText(s.verified))]
  }

  /** The `req.query` the server reads back from those parameters. */
  function ServerQuery(s: JobsView.Search): (q: JobRoutes.Query)
    ensures q.Keys == {"q", "category", "type", "remote", "urgent", "verified"}
  {
    map["q" := s.query, "category" := s.category, "type" := s.jobType,
        "remote" := BoolText(s.remote), "urgent" := BoolText(s.urgent), "verified" := BoolText(s.verified)]
  }

  /** The job board always sends a query string, even for its default controls. */
  lemma SearchAlwaysHasQueryString(s: JobsView.Search, encode: string -> string)
    ensures ApiClient.ListJobsPath(SearchParams(s), encode) != "/jobs"
  {
  }

  /** The board's default controls reach the server as no constraint at all. */
  lemma DefaultSearchUnconstrained()
    ensures JobRoutes.BuildFilter(ServerQuery(JobsView.DefaultSearch)) == JobRoutes.Unconstrained
  {
  }

  /** Every job the board shows also matches the filter the server applied for
      the same controls: the board only narrows what the server sent. */
  lemma BoardNarrowsServer(j: Job, s: JobsView.Search)
    requires JobsView.Shown(j, s)
    ensures JobRoutes.Matches(j, JobRoutes.BuildFilter(ServerQuery(s)))
  {
    var f := JobRoutes.BuildFilter(ServerQuery(s));
    if f.text.Some? {
      assert JobRoutes.TextMatches(j, s.query);
    }
  }

  /** A string lacking the first character of `sub` does not contain `sub`. */
  lemma MissingFirstChar(s: string, sub: string)
    requires |sub| > 0 && sub[0] !in s
    ensures !Contains(s, sub)
  {
  }

  /** A message without the digit 4 is never recognised as a conflict or an
      invalid input: it is shown as a generic failure quoting it. */
  lemma NoFourIsGenericFailure(message: string)
    requires '4' !in message
    ensures Signup.MapRegisterError(message) == "Registration failed: " + message
  {
    MissingFirstChar(message, "409");
    MissingFirstChar(message, "400");
  }

  const ConflictMessage := "Username or email already in use"

  /** The server's conflict reply is shown as a generic failure quoting it: the
      page looks for the digits "409" in the message, but the server's message
      carries none, so the dedicated "already exists" text never appears. */
  lemma ConflictShownAsGenericFailure(bodyText: string, parse: string -> Option<ApiClient.Json>)
    requires bodyText != ""
    requires parse(bodyText).Some? && parse(bodyText).value.error == Some(ConflictMessage)
    ensures var r := ApiClient.Request(ApiClient.Response(false, 409, Some("application/json; charset=utf-8"), bodyText), parse);
            && r.Thrown? && r.error.HttpError?
            && Signup.MapRegisterError(r.error.message) == "Registration failed: " + ConflictMessage
  {
    ApiClient.ServerErrorSurfaces(409, bodyText, ConflictMessage, parse);
    NoFourIsGenericFailure(ConflictMessage);
  }

  /** The token the client stores is the one the middleware reads back. */
  lemma StoredTokenReadBack(token: string)
    requires token != "" && ' ' !in token
    ensures ApiClient.AuthHeader(Some(token)).Some?
    ensures var h := ApiClient.AuthHeader(Some(token)).value;
            StartsWith(h, AuthMiddleware.Prefix) && AuthMiddleware.BearerToken(h) == token
  {
    AuthMiddleware.BearerTokenRoundTrip(token, "");
    assert AuthMiddleware.Prefix + token + "" == "Bearer " + token;
  }

  /** The summary endpoint answers with counts only, so the dashboard finds no
      application or interview lists in it and shows zeros. */
  function SummaryAsDashboardData(s: DashboardSummary.Summary): (d: DashboardView.DashboardData)
    ensures d.applications.None? && d.interviews.None?
  {
    DashboardView.DashboardData(None, None)
  }

  lemma DashboardShowsZeros(db: Db, caller: User)
    ensures DashboardView.ComputeStats(Some(SummaryAsDashboardData(DashboardSummary.Summarize(db, caller))))
            == DashboardView.Stats(0, 0, 0, 0, 0)
  {
  }

  /** The job-creation body the server reads from the recruiter's payload: the
      schema has no skills, requirements or experience, so they are dropped, and
      `postedBy` is overwritten by the server. */
  function AsDraft(p: RecruiterForm.JobPayload): JobRoutes.JobDraft {
    JobRoutes.JobDraft(Some(p.title), Some(p.company), Some(p.location), Some(p.jobType), Some(p.salary),
                       None, [], None, None, None, Some(p.description))
  }

  /** A job posted from the recruiter form is stored without tags and as posted
      by the caller, whatever skills were typed and whatever `postedBy` was sent. */
  lemma RecruiterSkillsDropped(db: Db, caller: User, form: RecruiterForm.JobForm, userId: Option<Id>, now: int)
    requires JobRoutes.CreateJob(db, caller, AsDraft(RecruiterForm.BuildPayload(form, userId)), now).0.Ok?
    ensures var job := JobRoutes.CreateJob(db, caller, AsDraft(RecruiterForm.BuildPayload(form, userId)), now).0.value;
            job.tags == [] && job.postedBy == Some(caller.id)
  {
  }

  /** Deleting a job leaves its applications behind; a later status change on
      one of them fails with 500 because its job can no longer be found. */
  lemma StatusUpdateAfterJobDeleted(db: Db, poster: User, caller: User, jobId: Id, appId: Id, status: string, k: nat)
    requires JobRoutes.DeleteJob(db, poster, jobId).0.Ok?
    requires ParseStatus(status).Some?
    requires k < |db.applications| && db.applications[k].id == appId && db.applications[k].job == jobId
    requires forall i :: 0 <= i < k ==> db.applications[i].id != appId
    ensures var after := JobRoutes.DeleteJob(db, poster, jobId).1;
            Applications.UpdateStatus(after, caller, appId, status) == (Fail(500, "Failed to update application status"), after)
  {
    var after := JobRoutes.DeleteJob(db, poster, jobId).1;
    assert after.applications == db.applications;
    forall i | 0 <= i < |after.jobs| ensures after.jobs[i].id != jobId {
      assert after.jobs[i] in after.jobs;
    }
    var idx := Seqs.FindIndex(after.applications, (a: Application) => a.id == appId);
    assert idx == Some(k);
  }
}
