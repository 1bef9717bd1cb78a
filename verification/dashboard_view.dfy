/** The statistics panel of the student dashboard
    (src/components/portal/components/DashboardView.jsx): five counters derived
    from the loaded dashboard data, and the badge colours of statuses and
    interview types. */
module DashboardView {
  import opened Wrappers
  import DashboardSummary

  /** An application or interview entry as the view reads it: only its status
      string matters, and it may be missing. */
  datatype Entry = Entry(status: Option<string>)

  /** The loaded dashboard data; either list may be missing from the JSON. */
  datatype DashboardData = DashboardData(applications: Option<seq<Entry>>, interviews: Option<seq<Entry>>)

  datatype Stats = Stats(
    totalApplications: nat,
    activeApplications: nat,
    interviews: nat,
    offers: nat,
    responseRate: nat)

  /** Number of entries whose status is exactly `name`. */
  function StatusCount(s: seq<Entry>, name: string): (n: nat)
    ensures n <= |s|
    ensures n == 0 <==> forall k :: 0 <= k < |s| ==> s[k].status != Some(name)
  {
    if |s| == 0 then 0
    else (if s[0].status == Some(name) then 1 else 0) + StatusCount(s[1..], name)
  }

  /** Number of entries whose status is neither 'rejected' nor 'offer'
      (a missing status counts as active). */
  function ActiveCount(s: seq<Entry>): (n: nat)
    ensures n <= |s|
  {
    if |s| == 0 then 0
    else (if s[0].status != Some("rejected") && s[0].status != Some("offer") then 1 else 0) + ActiveCount(s[1..])
  }

  /** Number of entries whose status is not 'pending'. */
  function AnsweredCount(s: seq<Entry>): (n: nat)
    ensures n <= |s|
    ensures n == |s| - StatusCount(s, "pending")
  {
    if |s| == 0 then 0
    else (if s[0].status != Some("pending") then 1 else 0) + AnsweredCount(s[1..])
  }

  /** Every application is active, an offer or rejected, and only one of them. */
  lemma {:induction false} StatusPartition(s: seq<Entry>)
    ensures ActiveCount(s) + StatusCount(s, "offer") + StatusCount(s, "rejected") == |s|
  {
    if |s| > 0 {
      StatusPartition(s[1..]);
    }
  }

  /** The `stats` memo. No data at all gives five zeros; a missing list counts
      as empty; the response rate is the rounded share of applications that
      are no longer pending. */
  function ComputeStats(data: Option<DashboardData>): (r: Stats)
    ensures data.None? ==> r == Stats(0, 0, 0, 0, 0)
    ensures data.Some? ==>
              var apps := data.value.applications.GetOr([]);
              && r.totalApplications == |apps|
              && r.activeApplications + r.offers + StatusCount(apps, "rejected") == r.totalApplications
              && r.offers == StatusCount(apps, "offer")
              && r.interviews == StatusCount(data.value.interviews.GetOr([]), "scheduled")
    ensures r.responseRate <= 100
    ensures r.totalApplications == 0 ==> r.responseRate == 0
    ensures data.Some? && r.totalApplications > 0 ==>
              var answered := r.totalApplications - StatusCount(data.value.applications.GetOr([]), "pending");
              2 * r.totalApplications * r.responseRate <= 200 * answered + r.totalApplications
                < 2 * r.totalApplications * r.responseRate + 2 * r.totalApplications
  {
    match data
    case None => Stats(0, 0, 0, 0, 0)
    case Some(d) =>
      var apps := d.applications.GetOr([]);
      StatusPartition(apps);
      Stats(
        |apps|,
        ActiveCount(apps),
        StatusCount(d.interviews.GetOr([]), "scheduled"),
        StatusCount(apps, "offer"),
        if |apps| > 0 then DashboardSummary.RoundedPercent(AnsweredCount(apps), |apps|) else 0)
  }

  /** Badge colours used by the view. */
  datatype Tone = Yellow | Blue | Green | Red | Purple | Gray

  /** `getStatusColor`: four known statuses, everything else gray. */
  function StatusTone(status: Option<string>): (t: Tone)
    ensures t == Gray <==> status !in {Some("pending"), Some("interview"), Some("offer"), Some("rejected")}
    ensures status == Some("offer") ==> t == Green
    ensures status == Some("rejected") ==> t == Red
  {
    match status
    case Some("pending") => Yellow
    case Some("interview") => Blue
    case Some("offer") => Green
    case Some("rejected") => Red
    case _ => Gray
  }

  /** `getInterviewTypeColor`: three known types, everything else gray. */
  function InterviewTypeTone(kind: Option<string>): (t: Tone)
    ensures t == Gray <==> kind !in {Some("Technical"), Some("Behavioral"), Some("System Design")}
  {
    match kind
    case Some("Technical") => Blue
    case Some("Behavioral") => Green
    case Some("System Design") => Purple
    case _ => Gray
  }

  /** The four known statuses have four different colours. */
  lemma StatusTonesDistinct()
    ensures |{StatusTone(Some("pending")), StatusTone(Some("interview")),
              StatusTone(Some("offer")), StatusTone(Some("rejected")), Gray}| == 5
  {
  }
}
