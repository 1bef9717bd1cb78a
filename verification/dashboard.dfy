/** GET /dashboard/summary (backend/routes/dashboard.js): the caller's
    application and interview-session counts, the share of applications that
    became offers as a rounded percentage, and the first six jobs. */
module DashboardSummary {
  import opened Wrappers
  import opened Records
  import Seqs

  /** `Math.round(100 * part / whole)`, with 0 for an empty whole: the integer
      nearest to the exact percentage, halves rounding up. */
  function RoundedPercent(part: nat, whole: nat): (r: nat)
    requires part <= whole
    ensures whole == 0 ==> r == 0
    ensures whole > 0 ==> 2 * whole * r <= 200 * part + whole < 2 * whole * r + 2 * whole
    ensures r <= 100
    ensures part == 0 ==> r == 0
    ensures 0 < part == whole ==> r == 100
  {
    if whole == 0 then 0
    else
      RoundingBounds(part, whole);
      (200 * part + whole) / (2 * whole)
  }

  lemma MulMonotone(a: nat, b: int, c: int)
    requires b <= c
    ensures a * b <= a * c
  {
  }

  /** The quotient (200 * part + whole) div (2 * whole) is the rounded percentage. */
  lemma RoundingBounds(part: nat, whole: nat)
    requires 0 < whole && part <= whole
    ensures var q := (200 * part + whole) / (2 * whole);
            && 2 * whole * q <= 200 * part + whole < 2 * whole * q + 2 * whole
            && 0 <= q <= 100
            && (part == 0 ==> q == 0)
            && (part == whole ==> q == 100)
  {
    var d := 2 * whole;
    var n := 200 * part + whole;
    var q := n / d;
    assert n == d * q + n % d && 0 <= n % d < d;
    assert d * q <= n < d * q + d;
    assert 0 <= q;
    assert q <= 100 by {
      if q > 100 { MulMonotone(d, 101, q); }
    }
    if part == 0 {
      if q > 0 { MulMonotone(d, 1, q); }
    }
    if part == whole {
      if q < 100 { MulMonotone(d, q, 99); }
    }
    assert 2 * whole * q == d * q;
  }

  /** The applications of one user, in stored order (`Application.find({user})`). */
  function ApplicationsOf(apps: seq<Application>, user: Id): (r: seq<Application>)
    ensures forall a :: a in r <==> a in apps && a.user == user
    ensures Seqs.IsSubseq(r, apps) && |r| <= |apps|
    ensures forall a :: multiset(r)[a] == if a.user == user then multiset(apps)[a] else 0
  {
    var r := Seqs.Filter(apps, (a: Application) => a.user == user);
    Seqs.FilterCount(apps, (a: Application) => a.user == user);
    assert forall a :: a in r <==> a in multiset(r);
    assert forall a :: a in apps <==> a in multiset(apps);
    r
  }

  /** The interview sessions of one user (`InterviewSession.find({user})`). */
  function SessionsOf(sessions: seq<SessionRecord>, user: Id): (r: seq<SessionRecord>)
    ensures forall s :: s in r <==> s in sessions && s.user == Some(user)
    ensures Seqs.IsSubseq(r, sessions) && |r| <= |sessions|
    ensures forall s :: multiset(r)[s] == if s.user == Some(user) then multiset(sessions)[s] else 0
  {
    var r := Seqs.Filter(sessions, (s: SessionRecord) => s.user == Some(user));
    Seqs.FilterCount(sessions, (s: SessionRecord) => s.user == Some(user));
    assert forall s :: s in r <==> s in multiset(r);
    assert forall s :: s in sessions <==> s in multiset(sessions);
    r
  }

  /** Number of applications whose status is 'offer'. */
  function OfferCount(apps: seq<Application>): (n: nat)
    ensures n <= |apps|
    ensures n == 0 <==> forall i :: 0 <= i < |apps| ==> apps[i].status != Offer
  {
    if |apps| == 0 then 0
    else (if apps[0].status == Offer then 1 else 0) + OfferCount(apps[1..])
  }

  /** When every application is an offer, all of them are counted. */
  lemma {:induction false} OfferCountAll(apps: seq<Application>)
    requires forall i :: 0 <= i < |apps| ==> apps[i].status == Offer
    ensures OfferCount(apps) == |apps|
  {
    if |apps| > 0 {
      OfferCountAll(apps[1..]);
    }
  }

  datatype Summary = Summary(
    applicationsCount: nat,
    interviewRequests: nat,
    successRate: nat,
    recommendedJobs: seq<Job>)

  /** The summary of one caller. */
  function Summarize(db: Db, caller: User): (s: Summary)
    ensures s.applicationsCount == |ApplicationsOf(db.applications, caller.id)|
    ensures s.interviewRequests == |SessionsOf(db.sessions, caller.id)|
    ensures s.successRate <= 100
    ensures s.applicationsCount == 0 ==> s.successRate == 0
    ensures s.applicationsCount > 0 ==>
              var offers := OfferCount(ApplicationsOf(db.applications, caller.id));
              2 * s.applicationsCount * s.successRate <= 200 * offers + s.applicationsCount
                < 2 * s.applicationsCount * s.successRate + 2 * s.applicationsCount
    ensures |s.recommendedJobs| == if |db.jobs| < 6 then |db.jobs| else 6
    ensures s.recommendedJobs == db.jobs[..|s.recommendedJobs|]
  {
    var mine := ApplicationsOf(db.applications, caller.id);
    Summary(
      |mine|,
      |SessionsOf(db.sessions, caller.id)|,
      RoundedPercent(OfferCount(mine), |mine|),
      if |db.jobs| < 6 then db.jobs else db.jobs[..6])
  }

  /** A caller all of whose applications became offers has a success rate of
      100; one with applications but no offer has 0. */
  lemma SuccessRateExtremes(db: Db, caller: User)
    requires |ApplicationsOf(db.applications, caller.id)| > 0
    ensures (forall a :: a in db.applications && a.user == caller.id ==> a.status == Offer) ==>
              Summarize(db, caller).successRate == 100
    ensures (forall a :: a in db.applications && a.user == caller.id ==> a.status != Offer) ==>
              Summarize(db, caller).successRate == 0
  {
    var mine := ApplicationsOf(db.applications, caller.id);
    if forall a :: a in db.applications && a.user == caller.id ==> a.status == Offer {
      assert forall i :: 0 <= i < |mine| ==> mine[i].status == Offer by {
        forall i | 0 <= i < |mine| ensures mine[i].status == Offer {
          assert mine[i] in mine;
        }
      }
      OfferCountAll(mine);
    }
    if forall a :: a in db.applications && a.user == caller.id ==> a.status != Offer {
      assert forall i :: 0 <= i < |mine| ==> mine[i].status != Offer by {
        forall i | 0 <= i < |mine| ensures mine[i].status != Offer {
          assert mine[i] in mine;
        }
      }
    }
  }
}
