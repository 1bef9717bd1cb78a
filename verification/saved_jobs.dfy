/** The saved-jobs list of a user (backend/routes/user.js): saving appends an id
    that is not yet there, unsaving drops every copy of an id. */
module SavedJobs {
  import opened Records
  import Seqs

  /** No id occurs twice. */
  predicate NoDuplicates(ids: seq<Id>) {
    forall i, j :: 0 <= i < j < |ids| ==> ids[i] != ids[j]
  }

  /** POST /users/saved-jobs/:jobId: push the id unless `includes` finds it. */
  function Save(saved: seq<Id>, jobId: Id): (r: seq<Id>)
    ensures jobId in r
    ensures jobId !in saved ==> r == saved + [jobId]
    ensures jobId in saved ==> r == saved
    ensures NoDuplicates(saved) ==> NoDuplicates(r)
  {
    if jobId in saved then saved else saved + [jobId]
  }

  /** DELETE /users/saved-jobs/:jobId: keep the ids different from `jobId`, in order. */
  function Unsave(saved: seq<Id>, jobId: Id): (r: seq<Id>)
    ensures jobId !in r
    ensures forall x :: x in r <==> x in saved && x != jobId
    ensures Seqs.IsSubseq(r, saved)
    ensures forall x :: multiset(r)[x] == if x == jobId then 0 else multiset(saved)[x]
    ensures |r| <= |saved|
  {
    Seqs.FilterCount(saved, (id: Id) => id != jobId);
    Seqs.Filter(saved, (id: Id) => id != jobId)
  }

  /** Saving twice is saving once. */
  lemma SaveIdempotent(saved: seq<Id>, jobId: Id)
    ensures Save(Save(saved, jobId), jobId) == Save(saved, jobId)
  {
  }

  /** Unsaving an id that is not in the list changes nothing. */
  lemma {:induction false} UnsaveAbsent(saved: seq<Id>, jobId: Id)
    requires jobId !in saved
    ensures Unsave(saved, jobId) == saved
  {
    Seqs.FilterAll(saved, (id: Id) => id != jobId);
  }

  /** Saving an absent id and then unsaving it restores the original list. */
  lemma SaveThenUnsave(saved: seq<Id>, jobId: Id)
    requires jobId !in saved
    ensures Unsave(Save(saved, jobId), jobId) == saved
  {
    var p := (id: Id) => id != jobId;
    Seqs.FilterAppend(saved, [jobId], p);
    UnsaveAbsent(saved, jobId);
    assert Seqs.Filter([jobId], p) == [];
  }
}
