/** The job routes (backend/routes/jobs.js): the listing filter built from the
    query string, the page window over the newest-first matches, and the role and
    ownership checks guarding create, update and delete. */
module JobRoutes {
  import opened Wrappers
  import opened Records
  import opened Text
  import Seqs

  /** `req.query`: parameter name to (string) value. */
  type Query = map<string, string>

  function Param(query: Query, key: string): Option<string> {
    if key in query then Some(query[key]) else None
  }

  /** The database filter assembled by GET /jobs. `None`/`false` means the
      corresponding field is not constrained. */
  datatype JobFilter = JobFilter(
    text: Option<string>,
    category: Option<string>,
    jobType: Option<string>,
    remote: bool,
    urgent: bool,
    verified: bool)

  const Unconstrained := JobFilter(None, None, None, false, false, false)

  /** A category or type parameter constrains only when present, non-empty and not 'All'. */
  function SentinelParam(query: Query, key: string): (r: Option<string>)
    ensures r.Some? <==> key in query && query[key] != "" && query[key] != "All"
    ensures r.Some? ==> r.value == query[key]
  {
    if Truthy(Param(query, key)) && query[key] != "All" then Some(query[key]) else None
  }

  function BuildFilter(query: Query): (f: JobFilter)
    ensures f.text.Some? <==> "q" in query && query["q"] != ""
    ensures f.text.Some? ==> f.text.value == query["q"]
    ensures f.remote <==> Param(query, "remote") == Some("true")
    ensures f.urgent <==> Param(query, "urgent") == Some("true")
    ensures f.verified <==> Param(query, "verified") == Some("true")
  {
    JobFilter(
      if Truthy(Param(query, "q")) then Some(query["q"]) else None,
      SentinelParam(query, "category"),
      SentinelParam(query, "type"),
      Param(query, "remote") == Some("true"),
      Param(query, "urgent") == Some("true"),
      Param(query, "verified") == Some("true"))
  }

  /** The `$or` of case-insensitive matches on title, company, any tag, or location. */
  predicate TextMatches(job: Job, q: string) {
    || ContainsIgnoreCase(job.title, q)
    || ContainsIgnoreCase(job.company, q)
    || (exists i :: 0 <= i < |job.tags| && ContainsIgnoreCase(job.tags[i], q))
    || (job.location.Some? && ContainsIgnoreCase(job.location.value, q))
  }

  /** A stored job satisfies the database filter. */
  predicate Matches(job: Job, f: JobFilter) {
    && (f.text.None? || TextMatches(job, f.text.value))
    && (f.category.None? || job.category == f.category)
    && (f.jobType.None? || JobTypeName(job.jobType) == f.jobType.value)
    && (!f.remote || job.remote)
    && (!f.urgent || job.urgent)
    && (!f.verified || job.verified)
  }

  /** The unconstrained filter matches every job. */
  lemma UnconstrainedMatchesAll(job: Job)
    ensures Matches(job, Unconstrained)
  {
  }

  /** 'All' in the category parameter constrains no more than leaving it out. */
  lemma CategoryAllIsNoConstraint(query: Query)
    ensures BuildFilter(query["category" := "All"]) == BuildFilter(query - {"category"})
  {
    var a := query["category" := "All"];
    var b := query - {"category"};
    assert forall k :: k != "category" ==> Param(a, k) == Param(b, k);
  }

  /** 'All' in the type parameter constrains no more than leaving it out. */
  lemma TypeAllIsNoConstraint(query: Query)
    ensures BuildFilter(query["type" := "All"]) == BuildFilter(query - {"type"})
  {
    var a := query["type" := "All"];
    var b := query - {"type"};
    assert forall k :: k != "type" ==> Param(a, k) == Param(b, k);
  }

  /** Any remote value other than the exact string 'true' constrains nothing. */
  lemma RemoteOnlyTrueConstrains(query: Query, v: string)
    requires v != "true"
    ensures BuildFilter(query["remote" := v]) == BuildFilter(query - {"remote"})
  {
    var a := query["remote" := v];
    var b := query - {"remote"};
    assert forall k :: k != "remote" ==> Param(a, k) == Param(b, k);
  }

  /** A query with no parameters builds the unconstrained filter. */
  lemma EmptyQueryUnconstrained()
    ensures BuildFilter(map[]) == Unconstrained
  {
  }

  function PostedAt(j: Job): int { j.postedAt }

  /** The matching jobs, newest posting first (`find(filter).sort({postedAt: -1})`). */
  function Ranked(jobs: seq<Job>, f: JobFilter): (r: seq<Job>)
    ensures Seqs.SortedDesc(r, PostedAt)
    ensures forall j :: j in r <==> j in jobs && Matches(j, f)
    ensures forall j :: multiset(r)[j] == if Matches(j, f) then multiset(jobs)[j] else 0
    ensures |r| == |Seqs.Filter(jobs, (j: Job) => Matches(j, f))|
  {
    var m := Seqs.Filter(jobs, (j: Job) => Matches(j, f));
    Seqs.FilterCount(jobs, (j: Job) => Matches(j, f));
    var r := Seqs.SortDesc(m, PostedAt);
    assert forall j :: j in r <==> j in multiset(r);
    assert forall j :: j in jobs <==> j in multiset(jobs);
    r
  }

  datatype JobPage = JobPage(items: seq<Job>, total: nat, page: int, pageSize: int)

  /** Number of documents skipped: (page - 1) * pageSize with defaults page 1, pageSize 50. */
  function Skip(page: Option<int>, pageSize: Option<int>): int {
    (page.GetOr(1) - 1) * pageSize.GetOr(50)
  }

  /** The most documents a cursor `limit(n)` yields; 0 means unlimited. */
  function LimitBound(n: int): nat {
    if n < 0 then -n else n
  }

  /** How many of `n` ordered documents are left after skipping `skip`. */
  function Remaining(n: nat, skip: int): nat {
    if skip <= 0 then n else if skip <= n then n - skip else 0
  }

  /** `skip(skip).limit(limit)` over an already ordered result. */
  function Window(ranked: seq<Job>, skip: nat, limit: int): (items: seq<Job>)
    ensures limit != 0 ==> |items| <= LimitBound(limit)
    ensures forall i :: 0 <= i < |items| ==> skip + i < |ranked| && items[i] == ranked[skip + i]
    ensures |items| == Remaining(|ranked|, skip) || (limit != 0 && |items| == LimitBound(limit))
    ensures forall j :: j in items ==> j in ranked
  {
    var rest := if skip <= |ranked| then ranked[skip..] else [];
    if limit == 0 || |rest| <= LimitBound(limit) then rest else rest[..LimitBound(limit)]
  }

  /** GET /jobs. A negative skip is refused by the store and the handler, having no
      `catch`, answers nothing (`None`). Otherwise the items are the window of the
      newest-first matches starting at the skip, at most the page size long. */
  function ListJobs(jobs: seq<Job>, query: Query, page: Option<int>, pageSize: Option<int>): (r: Option<JobPage>)
    ensures r.Some? <==> Skip(page, pageSize) >= 0
    ensures r.Some? ==>
              var ranked := Ranked(jobs, BuildFilter(query));
              var skip := Skip(page, pageSize);
              var limit := pageSize.GetOr(50);
              && r.value.total == |ranked|
              && r.value.page == page.GetOr(1)
              && r.value.pageSize == limit
              && (limit != 0 ==> |r.value.items| <= LimitBound(limit))
              && (forall i :: 0 <= i < |r.value.items| ==> skip + i < |ranked| && r.value.items[i] == ranked[skip + i])
              && (|r.value.items| == Remaining(|ranked|, skip) || (limit != 0 && |r.value.items| == LimitBound(limit)))
    ensures r.Some? ==> forall j :: j in r.value.items ==> j in jobs && Matches(j, BuildFilter(query))
  {
    var skip := Skip(page, pageSize);
    if skip < 0 then None
    else
      var ranked := Ranked(jobs, BuildFilter(query));
      Some(JobPage(Window(ranked, skip, pageSize.GetOr(50)), |ranked|, page.GetOr(1), pageSize.GetOr(50)))
  }

  /** Without page parameters the listing starts at the newest match and holds at most 50. */
  lemma DefaultPaging(jobs: seq<Job>, query: Query)
    ensures ListJobs(jobs, query, None, None).Some?
    ensures var r := ListJobs(jobs, query, None, None).value;
            && r.page == 1 && r.pageSize == 50
            && |r.items| <= 50
            && r.items == Ranked(jobs, BuildFilter(query))[..|r.items|]
  {
    var r := ListJobs(jobs, query, None, None).value;
    var ranked := Ranked(jobs, BuildFilter(query));
    assert Skip(None, None) == 0;
    assert r.items == ranked[..|r.items|];
  }

  /** The caller posted the job, or is an admin. `String(undefined)` never equals an id. */
  predicate CanModify(job: Job, caller: User) {
    job.postedBy == Some(caller.id) || caller.role == Admin
  }

  /** The body of POST /jobs; absent fields take the schema defaults. */
  datatype JobDraft = JobDraft(
    title: Option<string>,
    company: Option<string>,
    location: Option<string>,
    jobType: Option<string>,
    salary: Option<string>,
    remote: Option<bool>,
    tags: seq<string>,
    category: Option<string>,
    urgent: Option<bool>,
    verified: Option<bool>,
    description: Option<string>)

  /** The schema's validation: a required string must be non-empty, the type must be in its enum. */
  predicate ValidFields(title: string, company: string, jobType: Option<string>) {
    title != "" && company != "" && (jobType.None? || ParseJobType(jobType.value).Some?)
  }

  /** POST /jobs: 403 unless the caller is a recruiter or an admin; a body failing
      validation gives 400; otherwise one new job posted by the caller is stored. */
  function CreateJob(db: Db, caller: User, draft: JobDraft, now: int): (r: (Reply<Job>, Db))
    ensures caller.role == Student ==> r == (Fail(403, "Forbidden"), db)
    ensures r.0.Fail? ==> r.1 == db
    ensures r.0.Ok? <==>
              (caller.role in {Recruiter, Admin} && draft.title.Some? && draft.company.Some?
               && ValidFields(draft.title.value, draft.company.value, draft.jobType))
    ensures r.0.Ok? ==>
              && r.0.status == 201
              && r.0.value.postedBy == Some(caller.id)
              && r.0.value.title == draft.title.value && r.0.value.company == draft.company.value
              && (forall k :: 0 <= k < |db.jobs| ==> db.jobs[k].id != r.0.value.id)
              && r.1 == db.(jobs := db.jobs + [r.0.value])
  {
    if !(caller.role == Recruiter || caller.role == Admin) then (Fail(403, "Forbidden"), db)
    else if draft.title.None? || draft.company.None?
         || !ValidFields(draft.title.value, draft.company.value, draft.jobType) then
      (Fail(400, "Create failed"), db)
    else
      var job := Job(
        NextId(db.jobs, (j: Job) => j.id),
        draft.title.value,
        draft.company.value,
        draft.location,
        if draft.jobType.None? then FullTime else ParseJobType(draft.jobType.value).value,
        draft.salary,
        draft.remote.GetOr(false),
        draft.tags,
        draft.category,
        draft.urgent.GetOr(false),
        draft.verified.GetOr(false),
        draft.description,
        Some(caller.id),
        now);
      (Ok(201, job), db.(jobs := db.jobs + [job]))
  }

  /** GET /jobs/:id. */
  function GetJob(db: Db, jobId: Id): (r: Reply<Job>)
    ensures r.Ok? <==> exists k :: 0 <= k < |db.jobs| && db.jobs[k].id == jobId
    ensures r.Fail? ==> r == Fail(404, "Not found")
    ensures r.Ok? ==> r.value in db.jobs && r.value.id == jobId
  {
    match FindJob(db.jobs, jobId)
    case None => Fail(404, "Not found")
    case Some(job) => Ok(200, job)
  }

  /** The fields of a PUT /jobs/:id body copied onto the stored job; absent ones are kept. */
  datatype JobPatch = JobPatch(
    title: Option<string>,
    company: Option<string>,
    location: Option<string>,
    jobType: Option<string>,
    salary: Option<string>,
    remote: Option<bool>,
    tags: Option<seq<string>>,
    category: Option<string>,
    urgent: Option<bool>,
    verified: Option<bool>,
    description: Option<string>,
    postedBy: Option<Id>)

  /** `Object.assign(job, patch)` followed by the schema's validation on save.
      Nothing stops the body from naming a new poster. */
  function Assign(job: Job, patch: JobPatch): (r: Option<Job>)
    ensures r.Some? ==> r.value.id == job.id && r.value.postedAt == job.postedAt
    ensures r.Some? ==> r.value.postedBy == if patch.postedBy.Some? then patch.postedBy else job.postedBy
    ensures r.Some? ==> r.value.title == patch.title.GetOr(job.title) && r.value.company == patch.company.GetOr(job.company)
    ensures r.Some? <==> ValidFields(patch.title.GetOr(job.title), patch.company.GetOr(job.company), patch.jobType)
  {
    var title := patch.title.GetOr(job.title);
    var company := patch.company.GetOr(job.company);
    if !ValidFields(title, company, patch.jobType) then None
    else
      Some(Job(
        job.id,
        title,
        company,
        if patch.location.Some? then patch.location else job.location,
        if patch.jobType.None? then job.jobType else ParseJobType(patch.jobType.value).value,
        if patch.salary.Some? then patch.salary else job.salary,
        patch.remote.GetOr(job.remote),
        patch.tags.GetOr(job.tags),
        if patch.category.Some? then patch.category else job.category,
        patch.urgent.GetOr(job.urgent),
        patch.verified.GetOr(job.verified),
        if patch.description.Some? then patch.description else job.description,
        if patch.postedBy.Some? then patch.postedBy else job.postedBy,
        job.postedAt))
  }

  /** PUT /jobs/:id: 404 for an unknown job, 403 unless poster or admin, 400 if the
      patched job fails validation; otherwise only that job is replaced. */
  function UpdateJob(db: Db, caller: User, jobId: Id, patch: JobPatch): (r: (Reply<Job>, Db))
    ensures FindJob(db.jobs, jobId).None? ==> r == (Fail(404, "Not found"), db)
    ensures FindJob(db.jobs, jobId).Some? && !CanModify(FindJob(db.jobs, jobId).value, caller) ==>
              r == (Fail(403, "Forbidden"), db)
    ensures FindJob(db.jobs, jobId).Some? && CanModify(FindJob(db.jobs, jobId).value, caller) ==>
              && (Assign(FindJob(db.jobs, jobId).value, patch).None? ==> r == (Fail(400, "Update failed"), db))
              && (Assign(FindJob(db.jobs, jobId).value, patch).Some? ==>
                    r.0 == Ok(200, Assign(FindJob(db.jobs, jobId).value, patch).value))
    ensures r.0.Fail? ==> r.1 == db
    ensures r.0.Ok? ==>
              && FindJob(db.jobs, jobId).Some? && CanModify(FindJob(db.jobs, jobId).value, caller)
              && r.0.value.id == jobId
              && r.1 == db.(jobs := r.1.jobs)
              && |r.1.jobs| == |db.jobs|
              && forall k :: 0 <= k < |db.jobs| ==> r.1.jobs[k] == db.jobs[k] || (db.jobs[k].id == jobId && r.1.jobs[k] == r.0.value)
  {
    match Seqs.FindIndex(db.jobs, (j: Job) => j.id == jobId)
    case None => (Fail(404, "Not found"), db)
    case Some(k) =>
      var job := db.jobs[k];
      if !CanModify(job, caller) then (Fail(403, "Forbidden"), db)
      else
        match Assign(job, patch)
        case None => (Fail(400, "Update failed"), db)
        case Some(updated) => (Ok(200, updated), db.(jobs := db.jobs[k := updated]))
  }

  /** A patch naming someone else as poster hands the job over: its original
      poster, unless an admin, can no longer change it. */
  lemma PatchHandsJobOver(db: Db, poster: User, jobId: Id, patch: JobPatch)
    requires patch.postedBy.Some? && patch.postedBy.value != poster.id && poster.role != Admin
    requires UpdateJob(db, poster, jobId, patch).0.Ok?
    ensures var after := UpdateJob(db, poster, jobId, patch).1;
            UpdateJob(after, poster, jobId, patch) == (Fail(403, "Forbidden"), after)
  {
    var (r, after) := UpdateJob(db, poster, jobId, patch);
    var k := Seqs.FindIndex(db.jobs, (j: Job) => j.id == jobId).value;
    assert after.jobs == db.jobs[k := r.value];
    var k' := Seqs.FindIndex(after.jobs, (j: Job) => j.id == jobId);
    assert k' == Some(k) by {
      assert forall i :: 0 <= i < k ==> after.jobs[i] == db.jobs[i];
    }
    assert FindJob(after.jobs, jobId) == Some(r.value);
  }

  /** DELETE /jobs/:id: 404 for an unknown job, 403 unless poster or admin;
      otherwise the job is removed and every other job kept, in order. */
  function DeleteJob(db: Db, caller: User, jobId: Id): (r: (Reply<bool>, Db))
    ensures FindJob(db.jobs, jobId).None? ==> r == (Fail(404, "Not found"), db)
    ensures FindJob(db.jobs, jobId).Some? && !CanModify(FindJob(db.jobs, jobId).value, caller) ==>
              r == (Fail(403, "Forbidden"), db)
    ensures r.0.Fail? ==> r.1 == db
    ensures r.0.Ok? ==>
              && r.0 == Ok(200, true)
              && r.1 == db.(jobs := r.1.jobs)
              && (forall j :: j in r.1.jobs <==> j in db.jobs && j.id != jobId)
              && Seqs.IsSubseq(r.1.jobs, db.jobs)
    ensures r.0.Ok? ==>
              forall j :: multiset(r.1.jobs)[j] == if j.id == jobId then 0 else multiset(db.jobs)[j]
  {
    match FindJob(db.jobs, jobId)
    case None => (Fail(404, "Not found"), db)
    case Some(job) =>
      if !CanModify(job, caller) then (Fail(403, "Forbidden"), db)
      else
        (Ok(200, true), db.(jobs := Without(db.jobs, jobId)))
  }

  /** What `job.deleteOne()` leaves: the jobs whose id differs from `jobId`,
      every copy kept, in order. `deleteOne` removes the one document found by
      id; the store keeps ids unique, so that document is every job with the id. */
  function Without(jobs: seq<Job>, jobId: Id): (kept: seq<Job>)
    ensures forall j :: j in kept <==> j in jobs && j.id != jobId
    ensures Seqs.IsSubseq(kept, jobs)
    ensures forall j :: multiset(kept)[j] == if j.id == jobId then 0 else multiset(jobs)[j]
  {
    var kept := Seqs.Filter(jobs, (j: Job) => j.id != jobId);
    Seqs.FilterCount(jobs, (j: Job) => j.id != jobId);
    assert forall j :: j in kept <==> j in multiset(kept);
    assert forall j :: j in jobs <==> j in multiset(jobs);
    kept
  }

  /** Once a job is deleted, fetching it answers 404. */
  lemma DeleteThenGetNotFound(db: Db, caller: User, jobId: Id)
    requires DeleteJob(db, caller, jobId).0.Ok?
    ensures GetJob(DeleteJob(db, caller, jobId).1, jobId) == Fail(404, "Not found")
  {
    var after := DeleteJob(db, caller, jobId).1;
    forall k | 0 <= k < |after.jobs| ensures after.jobs[k].id != jobId {
      assert after.jobs[k] in after.jobs;
    }
  }
}
