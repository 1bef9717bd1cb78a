/** The application routes (backend/routes/applications.js): applying to a job,
    listing a job's applications for its poster, listing the caller's own
    applications, and changing an application's status. Each handler takes the
    database and the authenticated caller and returns its reply together with the
    database after the call. */
module Applications {
  import opened Wrappers
  import opened Records
  import Seqs

  /** Some application of `user` to `job` is already stored. */
  predicate HasApplied(apps: seq<Application>, user: Id, job: Id) {
    exists k :: 0 <= k < |apps| && apps[k].user == user && apps[k].job == job
  }

  /** At most one application per (user, job) pair. */
  predicate UniquePairs(apps: seq<Application>) {
    forall i, j :: 0 <= i < j < |apps| ==> apps[i].user != apps[j].user || apps[i].job != apps[j].job
  }

  /** POST /applications: 404 for an unknown job, 400 for a repeated application,
      otherwise exactly one new 'submitted' application of the caller to the job. */
  function Apply(db: Db, caller: User, jobId: Id, now: int): (r: (Reply<Application>, Db))
    ensures FindJob(db.jobs, jobId).None? ==> r == (Fail(404, "Job not found"), db)
    ensures FindJob(db.jobs, jobId).Some? && HasApplied(db.applications, caller.id, jobId) ==>
              r == (Fail(400, "You have already applied for this job"), db)
    ensures r.0.Ok? <==> FindJob(db.jobs, jobId).Some? && !HasApplied(db.applications, caller.id, jobId)
    ensures r.0.Ok? ==>
              && r.0.status == 201
              && r.0.value.user == caller.id && r.0.value.job == jobId && r.0.value.status == Submitted
              && (forall k :: 0 <= k < |db.applications| ==> db.applications[k].id != r.0.value.id)
              && r.1 == db.(applications := db.applications + [r.0.value])
    ensures r.0.Ok? ==>
              forall k :: 0 <= k < |r.1.applications| ==>
                (r.1.applications[k].user == caller.id && r.1.applications[k].job == jobId <==> k == |db.applications|)
  {
    if FindJob(db.jobs, jobId).None? then
      (Fail(404, "Job not found"), db)
    else if HasApplied(db.applications, caller.id, jobId) then
      (Fail(400, "You have already applied for this job"), db)
    else
      var a := Application(NextId(db.applications, (a: Application) => a.id), caller.id, jobId, Submitted, None, now);
      (Ok(201, a), db.(applications := db.applications + [a]))
  }

  /** One apply call keeps the one-application-per-pair invariant. */
  lemma ApplyKeepsUniquePairs(db: Db, caller: User, jobId: Id, now: int)
    requires UniquePairs(db.applications)
    ensures UniquePairs(Apply(db, caller, jobId, now).1.applications)
  {
  }

  /** A request to POST /applications: caller, job id and request time. */
  datatype ApplyRequest = ApplyRequest(caller: User, jobId: Id, now: int)

  /** The database after serving the given apply requests in order. */
  function ApplyAll(db: Db, reqs: seq<ApplyRequest>): Db
    decreases |reqs|
  {
    if |reqs| == 0 then db
    else ApplyAll(Apply(db, reqs[0].caller, reqs[0].jobId, reqs[0].now).1, reqs[1..])
  }

  /** After any sequence of apply calls each (user, job) pair has at most one application. */
  lemma {:induction false} ApplyAllKeepsUniquePairs(db: Db, reqs: seq<ApplyRequest>)
    requires UniquePairs(db.applications)
    ensures UniquePairs(ApplyAll(db, reqs).applications)
    decreases |reqs|
  {
    if |reqs| > 0 {
      ApplyKeepsUniquePairs(db, reqs[0].caller, reqs[0].jobId, reqs[0].now);
      ApplyAllKeepsUniquePairs(Apply(db, reqs[0].caller, reqs[0].jobId, reqs[0].now).1, reqs[1..]);
    }
  }

  function CreatedAt(a: Application): int { a.createdAt }

  /** The stored applications meeting `p`, newest first (`sort({createdAt: -1})`). */
  function NewestFirst(apps: seq<Application>, p: Application -> bool): (r: seq<Application>)
    ensures forall a :: a in r <==> a in apps && p(a)
    ensures Seqs.SortedDesc(r, CreatedAt)
    ensures forall a :: multiset(r)[a] == if p(a) then multiset(apps)[a] else 0
  {
    var f := Seqs.Filter(apps, p);
    Seqs.FilterCount(apps, p);
    var r := Seqs.SortDesc(f, CreatedAt);
    assert forall a :: a in r <==> a in multiset(r);
    assert forall a :: a in apps <==> a in multiset(apps);
    r
  }

  /** GET /applications/job/:jobId: 404 for an unknown job, 403 unless the caller
      posted it, otherwise exactly the job's applications, newest first. A job
      without a poster makes `postedBy.toString()` throw, answered as 500. */
  function ListForJob(db: Db, caller: User, jobId: Id): (r: Reply<seq<Application>>)
    ensures FindJob(db.jobs, jobId).None? ==> r == Fail(404, "Job not found")
    ensures (FindJob(db.jobs, jobId).Some? && FindJob(db.jobs, jobId).value.postedBy.Some?
             && FindJob(db.jobs, jobId).value.postedBy.value != caller.id) ==> r == Fail(403, "Access denied")
    ensures r.Ok? <==> FindJob(db.jobs, jobId).Some? && FindJob(db.jobs, jobId).value.postedBy == Some(caller.id)
    ensures r.Ok? ==> r.status == 200
    ensures r.Ok? ==> forall a :: a in r.value <==> a in db.applications && a.job == jobId
    ensures r.Ok? ==> Seqs.SortedDesc(r.value, CreatedAt)
    ensures r.Ok? ==> forall a :: multiset(r.value)[a] == if a.job == jobId then multiset(db.applications)[a] else 0
  {
    match FindJob(db.jobs, jobId)
    case None => Fail(404, "Job not found")
    case Some(job) =>
      if job.postedBy.None? then Fail(500, "Failed to fetch applications")
      else if job.postedBy.value != caller.id then Fail(403, "Access denied")
      else Ok(200, NewestFirst(db.applications, (a: Application) => a.job == jobId))
  }

  /** GET /applications/my-applications: the caller's applications, newest first. */
  function MyApplications(db: Db, caller: User): (r: Reply<seq<Application>>)
    ensures r.Ok? && r.status == 200
    ensures forall a :: a in r.value <==> a in db.applications && a.user == caller.id
    ensures Seqs.SortedDesc(r.value, CreatedAt)
    ensures forall a :: multiset(r.value)[a] == if a.user == caller.id then multiset(db.applications)[a] else 0
  {
    Ok(200, NewestFirst(db.applications, (a: Application) => a.user == caller.id))
  }

  /** The status set, the application, its job and the caller's ownership all check out. */
  predicate MayUpdate(db: Db, caller: User, appId: Id, status: string) {
    && ParseStatus(status).Some?
    && Seqs.FindIndex(db.applications, (a: Application) => a.id == appId).Some?
    && var app := db.applications[Seqs.FindIndex(db.applications, (a: Application) => a.id == appId).value];
       FindJob(db.jobs, app.job).Some? && FindJob(db.jobs, app.job).value.postedBy == Some(caller.id)
  }

  /** PUT /applications/:applicationId/status. The status is checked before any
      lookup; then 404 for an unknown application, 403 unless the caller posted
      its job; only that application's status changes. An application whose job
      is gone, or whose job has no poster, makes the ownership check throw (500). */
  function UpdateStatus(db: Db, caller: User, appId: Id, status: string): (r: (Reply<Application>, Db))
    ensures ParseStatus(status).None? ==> r == (Fail(400, "Invalid status"), db)
    ensures ParseStatus(status).Some? && (forall k :: 0 <= k < |db.applications| ==> db.applications[k].id != appId)
            ==> r == (Fail(404, "Application not found"), db)
    ensures r.0.Fail? ==> r.1 == db
    ensures r.0.Ok? <==> MayUpdate(db, caller, appId, status)
    ensures r.0.Ok? ==>
              && r.0.status == 200
              && r.0.value.id == appId
              && r.0.value.status == ParseStatus(status).value
              && r.0.value in r.1.applications
              && r.1 == db.(applications := r.1.applications)
              && |r.1.applications| == |db.applications|
              && forall k :: 0 <= k < |db.applications| ==>
                   || r.1.applications[k] == db.applications[k]
                   || (db.applications[k].id == appId
                       && r.1.applications[k] == db.applications[k].(status := ParseStatus(status).value))
  {
    match ParseStatus(status)
    case None => (Fail(400, "Invalid status"), db)
    case Some(s) =>
      match Seqs.FindIndex(db.applications, (a: Application) => a.id == appId)
      case None => (Fail(404, "Application not found"), db)
      case Some(k) =>
        var app := db.applications[k];
        match FindJob(db.jobs, app.job)
        case None => (Fail(500, "Failed to update application status"), db)
        case Some(job) =>
          if job.postedBy.None? then (Fail(500, "Failed to update application status"), db)
          else if job.postedBy.value != caller.id then (Fail(403, "Access denied"), db)
          else
            var updated := app.(status := s);
            assert db.applications[k := updated][k] == updated;
            (Ok(200, updated), db.(applications := db.applications[k := updated]))
  }

  /** A status update on an application of a job posted by someone else is refused. */
  lemma UpdateByNonPosterForbidden(db: Db, caller: User, appId: Id, status: string, k: nat)
    requires ParseStatus(status).Some?
    requires k < |db.applications| && db.applications[k].id == appId
    requires forall i :: 0 <= i < k ==> db.applications[i].id != appId
    requires FindJob(db.jobs, db.applications[k].job).Some?
    requires FindJob(db.jobs, db.applications[k].job).value.postedBy.Some?
    requires FindJob(db.jobs, db.applications[k].job).value.postedBy.value != caller.id
    ensures UpdateStatus(db, caller, appId, status) == (Fail(403, "Access denied"), db)
  {
    var idx := Seqs.FindIndex(db.applications, (a: Application) => a.id == appId);
    assert idx == Some(k);
  }

  /** Status updates never touch users, jobs, or who applied to what, so the
      one-application-per-pair invariant survives them. */
  lemma UpdateKeepsUniquePairs(db: Db, caller: User, appId: Id, status: string)
    requires UniquePairs(db.applications)
    ensures UniquePairs(UpdateStatus(db, caller, appId, status).1.applications)
  {
    var r := UpdateStatus(db, caller, appId, status);
    if r.0.Ok? {
      var apps := r.1.applications;
      forall i, j | 0 <= i < j < |apps| ensures apps[i].user != apps[j].user || apps[i].job != apps[j].job {
        assert apps[i].user == db.applications[i].user && apps[i].job == db.applications[i].job;
        assert apps[j].user == db.applications[j].user && apps[j].job == db.applications[j].job;
      }
    }
  }
}
