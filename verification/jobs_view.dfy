/** The browser-side job board (src/components/portal/components/JobsView.jsx):
    the posted-time label, the in-memory search over the loaded jobs, six-per-page
    pagination with clamped navigation, and the saved-job toggle. Jobs arrive as
    the server's JSON, so a job's `_id` is present and its `id` is not. */
module JobsView {
  import opened Wrappers
  import opened Records
  import opened Text
  import Seqs

  const DayMs: int := 86400000

  /** Whole days elapsed, as `Math.floor((now - posted) / 86400000)`. */
  function DaysBetween(posted: int, now: int): int {
    (now - posted) / DayMs
  }

  /** `relativeTime`. `posted` is the parsed `postedAt` in milliseconds, or None
      when the value is missing or does not parse; `now` stands for `Date.now()`. */
  function RelativeTime(posted: Option<int>, now: int): (r: string)
    ensures r == "" <==> posted.None?
    ensures posted.Some? && DaysBetween(posted.value, now) <= 0 ==> r == "Today"
    ensures posted.Some? && DaysBetween(posted.value, now) == 1 ==> r == "1 day ago"
    ensures posted.Some? && 7 <= DaysBetween(posted.value, now) < 14 ==> r == "1 week ago"
  {
    match posted
    case None => ""
    case Some(t) =>
      var days := DaysBetween(t, now);
      if days <= 0 then "Today"
      else if days == 1 then "1 day ago"
      else if days < 7 then NatToString(days) + " days ago"
      else
        var weeks := days / 7;
        if weeks == 1 then "1 week ago" else NatToString(weeks) + " weeks ago"
  }

  /** Between two and six days the label reads back the exact day count. */
  lemma RelativeTimeDays(posted: int, now: int)
    requires 2 <= DaysBetween(posted, now) < 7
    ensures var r := RelativeTime(Some(posted), now);
            exists ds :: r == ds + " days ago"
              && (forall i :: 0 <= i < |ds| ==> IsDigit(ds[i]))
              && DigitsValue(ds) == DaysBetween(posted, now)
  {
    var days := DaysBetween(posted, now);
    NatToStringRoundTrip(days);
    var ds := NatToString(days);
    assert RelativeTime(Some(posted), now) == ds + " days ago";
  }

  /** From two weeks on the label shows N weeks with 7N <= days < 7N + 7. */
  lemma RelativeTimeWeeks(posted: int, now: int)
    requires DaysBetween(posted, now) >= 14
    ensures var r := RelativeTime(Some(posted), now);
            exists ds :: r == ds + " weeks ago"
              && (forall i :: 0 <= i < |ds| ==> IsDigit(ds[i]))
              && 7 * DigitsValue(ds) <= DaysBetween(posted, now) < 7 * DigitsValue(ds) + 7
              && DigitsValue(ds) >= 2
  {
    var days := DaysBetween(posted, now);
    var weeks := days / 7;
    NatToStringRoundTrip(weeks);
    var ds := NatToString(weeks);
    assert RelativeTime(Some(posted), now) == ds + " weeks ago";
  }

  /** The search controls of the view. */
  datatype Search = Search(query: string, category: string, jobType: string,
                           remote: bool, urgent: bool, verified: bool)

  /** The controls as the view first renders them. */
  const DefaultSearch := Search("", "All", "All", false, false, false)

  /** `matchQ`: title, company or some tag contains the query, ignoring case.
      Unlike the server, the location is not searched. */
  predicate QueryMatches(j: Job, q: string) {
    || ContainsIgnoreCase(j.title, q)
    || ContainsIgnoreCase(j.company, q)
    || exists k :: 0 <= k < |j.tags| && ContainsIgnoreCase(j.tags[k], q)
  }

  /** All six conditions of the `filtered` memo. */
  predicate Shown(j: Job, s: Search) {
    && QueryMatches(j, s.query)
    && (s.category == "All" || j.category == Some(s.category))
    && (s.jobType == "All" || JobTypeName(j.jobType) == s.jobType)
    && (!s.remote || j.remote)
    && (!s.urgent || j.urgent)
    && (!s.verified || j.verified)
  }

  /** `filtered`: the loaded jobs passing every condition, in loaded order. */
  function Filtered(jobs: seq<Job>, s: Search): (r: seq<Job>)
    ensures forall k :: 0 <= k < |r| ==> r[k] in jobs && Shown(r[k], s)
    ensures forall k :: 0 <= k < |jobs| && Shown(jobs[k], s) ==> jobs[k] in r
    ensures Seqs.IsSubseq(r, jobs)
    ensures forall j :: multiset(r)[j] == if Shown(j, s) then multiset(jobs)[j] else 0
  {
    Seqs.FilterCount(jobs, (j: Job) => Shown(j, s));
    Seqs.Filter(jobs, (j: Job) => Shown(j, s))
  }

  /** The default controls hide nothing. */
  lemma DefaultSearchKeepsAll(jobs: seq<Job>)
    ensures Filtered(jobs, DefaultSearch) == jobs
  {
    forall k | 0 <= k < |jobs| ensures Shown(jobs[k], DefaultSearch) {
      EmptyOccurs(jobs[k].title);
    }
    Seqs.FilterAll(jobs, (j: Job) => Shown(j, DefaultSearch));
  }

  const PageSize: nat := 6

  /** `Math.ceil(n / 6) || 1`. */
  function TotalPages(n: nat): (t: nat)
    ensures t >= 1
    ensures n > 0 ==> (t - 1) * PageSize < n <= t * PageSize
    ensures n == 0 ==> t == 1
  {
    if n == 0 then 1 else (n + PageSize - 1) / PageSize
  }

  /** `Array.prototype.slice(start, end)`: negative positions count from the end,
      and both positions are clamped to the sequence. */
  function JsSlice<T>(s: seq<T>, start: int, end: int): (r: seq<T>)
    ensures var from := if start < 0 then (if |s| + start < 0 then 0 else |s| + start)
                        else (if start > |s| then |s| else start);
            var to := if end < 0 then (if |s| + end < 0 then 0 else |s| + end)
                      else (if end > |s| then |s| else end);
            r == (if from < to then s[from..to] else [])
  {
    var from := if start < 0 then (if |s| + start < 0 then 0 else |s| + start) else (if start > |s| then |s| else start);
    var to := if end < 0 then (if |s| + end < 0 then 0 else |s| + end) else (if end > |s| then |s| else end);
    if from < to then s[from..to] else []
  }

  /** `paged`: the jobs shown on page `page`. */
  function Paged(filtered: seq<Job>, page: int): (r: seq<Job>)
    ensures |r| <= PageSize
    ensures page >= 1 && (page - 1) * PageSize < |filtered| ==>
              r == filtered[(page - 1) * PageSize..if page * PageSize < |filtered| then page * PageSize else |filtered|]
    ensures page >= 1 && (page - 1) * PageSize >= |filtered| ==> r == []
  {
    JsSlice(filtered, (page - 1) * PageSize, page * PageSize)
  }

  /** The pages `page`, `page + 1`, ..., `last` laid end to end. */
  function PagesFrom(filtered: seq<Job>, page: int, last: int): seq<Job>
    decreases last - page
  {
    if page > last then [] else Paged(filtered, page) + PagesFrom(filtered, page + 1, last)
  }

  /** Reading every page from `page` to the last one gives the rest of the list
      from that page's first position: nothing is skipped or shown twice. */
  lemma {:induction false} PagesFromCover(filtered: seq<Job>, page: int)
    requires 1 <= page <= TotalPages(|filtered|) + 1
    ensures (page - 1) * PageSize <= |filtered| ==>
              PagesFrom(filtered, page, TotalPages(|filtered|)) == filtered[(page - 1) * PageSize..]
    decreases TotalPages(|filtered|) - page
  {
    var last := TotalPages(|filtered|);
    if page <= last && (page - 1) * PageSize <= |filtered| {
      if page * PageSize <= |filtered| {
        PagesFromCover(filtered, page + 1);
        assert filtered[(page - 1) * PageSize..] ==
               filtered[(page - 1) * PageSize..page * PageSize] + filtered[page * PageSize..];
      } else {
        assert page == last;
        assert PagesFrom(filtered, page + 1, last) == [];
      }
    }
  }

  /** The pages 1 to `totalPages`, laid end to end, are exactly `filtered`. */
  lemma PagesCoverFiltered(filtered: seq<Job>)
    ensures PagesFrom(filtered, 1, TotalPages(|filtered|)) == filtered
  {
    PagesFromCover(filtered, 1);
  }

  /** The Previous button: `Math.max(1, p - 1)`. */
  function PrevPage(page: int): (p: int)
    ensures p >= 1
    ensures page > 1 ==> p == page - 1
  {
    if page - 1 < 1 then 1 else page - 1
  }

  /** The Next button: `Math.min(totalPages, p + 1)`. */
  function NextPage(page: int, total: int): (p: int)
    ensures p <= total
    ensures page < total ==> p == page + 1
  {
    if page + 1 < total then page + 1 else total
  }

  /** Starting inside [1, totalPages], Previous and Next stay inside it. */
  lemma NavigationStaysInRange(page: int, total: int)
    requires 1 <= page <= total
    ensures 1 <= PrevPage(page) <= total
    ensures 1 <= NextPage(page, total) <= total
  {
  }

  /** `toggleSave`: membership of `key` flips and nothing else changes. A key is
      None when the view passes `job.id`, which server JSON does not carry. */
  function ToggleSave(saved: set<Option<Id>>, key: Option<Id>): (r: set<Option<Id>>)
    ensures key in r <==> key !in saved
    ensures forall x :: x != key ==> (x in r <==> x in saved)
  {
    if key in saved then saved - {key} else saved + {key}
  }

  /** Toggling the same key twice restores the saved set. */
  lemma ToggleTwice(saved: set<Option<Id>>, key: Option<Id>)
    ensures ToggleSave(ToggleSave(saved, key), key) == saved
  {
  }

  /** The card's Save button toggles `job._id`. */
  function CardKey(j: Job): Option<Id> { Some(j.id) }

  /** The card's star and the detail panel look up and toggle `job.id`. */
  function PlainKey(j: Job): Option<Id> { None }

  /** The card's label reads "Saved" when `_id` is in the set. */
  predicate CardLabelSaved(saved: set<Option<Id>>, j: Job) { CardKey(j) in saved }

  /** The star and the detail panel show "saved" when `id` is in the set. */
  predicate StarFilled(saved: set<Option<Id>>, j: Job) { PlainKey(j) in saved }

  /** The card's Save button flips the card's label but never the star; the
      detail panel's button flips the star (for every job at once) but never a
      card's label. */
  lemma SaveKeysDisagree(saved: set<Option<Id>>, j: Job, other: Job)
    ensures CardLabelSaved(ToggleSave(saved, CardKey(j)), j) != CardLabelSaved(saved, j)
    ensures StarFilled(ToggleSave(saved, CardKey(j)), j) == StarFilled(saved, j)
    ensures CardLabelSaved(ToggleSave(saved, PlainKey(j)), other) == CardLabelSaved(saved, other)
    ensures StarFilled(ToggleSave(saved, PlainKey(j)), other) != StarFilled(saved, other)
  {
  }
}
