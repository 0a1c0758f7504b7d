/** What the failed-jobs helper does to the relation table, stated on values:
    the relation one job adds, the effect of importing every job, and the
    pruning of relations whose submission is gone. The `Helper` class follows
    these definitions step by step. */
module Reconciler {
  import opened Entities
  import opened Lookups
  import Seqs

  /** The relation a job would add: present only when the job id is not zero and
      its payload names a submission that can be loaded. */
  function NewRelation(subs: map<SubmissionId, Submission>, id: JobId, job: Job): (r: Option<Relation>)
    ensures r.Some? <==> id != 0 && DataFromJob(subs, job.payload).Found?
    ensures r.Some? ==>
      r.value.submissionId in subs && r.value.submissionId != 0 &&
      SubmissionIdOf(job.payload) == Some(r.value.submissionId) &&
      r.value.webformId == subs[r.value.submissionId].webformId
  {
    match DataFromJob(subs, job.payload)
    case Found(sid, wf) => if id == 0 then None else Some(Relation(sid, wf))
    case _ => None
  }

  /** Whether handling a job goes on past the relation step to the backend: it
      returns early only for a job with a loadable submission whose id is zero or
      which already has a relation. */
  predicate ReachesBackend(rel: map<JobId, Relation>, subs: map<SubmissionId, Submission>, id: JobId, job: Job) {
    DataFromJob(subs, job.payload).Found? ==> id != 0 && id !in rel
  }

  /** The relation table after handling one job. */
  function Reconcile(rel: map<JobId, Relation>, subs: map<SubmissionId, Submission>, id: JobId, job: Job): map<JobId, Relation> {
    var n := NewRelation(subs, id, job);
    if id !in rel && n.Some? then rel[id := n.value] else rel
  }

  /** Handling a job adds at most its own relation, never rewrites an existing
      one (the first write wins), and adds it exactly when the job got past the
      early returns with a loadable submission. */
  lemma ReconcileEffect(rel: map<JobId, Relation>, subs: map<SubmissionId, Submission>, id: JobId, job: Job)
    ensures var after := Reconcile(rel, subs, id, job);
      (forall k :: k in rel ==> k in after && after[k] == rel[k]) &&
      (forall k :: k in after && k !in rel ==> k == id) &&
      (id in after && id !in rel <==> ReachesBackend(rel, subs, id, job) && NewRelation(subs, id, job).Some?) &&
      (id in after && id !in rel ==> after[id] == NewRelation(subs, id, job).value)
  {
  }

  /** Handling the same job twice is the same as handling it once. */
  lemma ReconcileIdempotent(rel: map<JobId, Relation>, subs: map<SubmissionId, Submission>, id: JobId, job: Job)
    ensures Reconcile(Reconcile(rel, subs, id, job), subs, id, job) == Reconcile(rel, subs, id, job)
  {
  }

  predicate AllIn(order: seq<JobId>, jobs: map<JobId, Job>) {
    forall i :: 0 <= i < |order| ==> order[i] in jobs
  }

  /** The relation table after handling the jobs of `order` one after the other. */
  function ImportRelations(rel: map<JobId, Relation>, subs: map<SubmissionId, Submission>,
                           jobs: map<JobId, Job>, order: seq<JobId>): map<JobId, Relation>
    requires AllIn(order, jobs)
  {
    if order == [] then rel
    else
      var last := order[|order| - 1];
      Reconcile(ImportRelations(rel, subs, jobs, order[..|order| - 1]), subs, last, jobs[last])
  }

  /** The relations an import discovers among the jobs `ids`: one for every job
      without a relation whose payload names a submission that can be loaded. */
  function Discovered(rel: map<JobId, Relation>, subs: map<SubmissionId, Submission>,
                      jobs: map<JobId, Job>, ids: set<JobId>): (d: map<JobId, Relation>)
    ensures forall k :: k in d <==> k in ids && k in jobs && k !in rel && NewRelation(subs, k, jobs[k]).Some?
  {
    map k | k in ids && k in jobs && k !in rel && NewRelation(subs, k, jobs[k]).Some? :: NewRelation(subs, k, jobs[k]).value
  }

  /** Handling one more job, not among those already imported, adds its
      discovered relation, if any. */
  lemma DiscoveredStep(rel: map<JobId, Relation>, subs: map<SubmissionId, Submission>,
                       jobs: map<JobId, Job>, ids: set<JobId>, x: JobId)
    requires x in jobs && x !in ids
    ensures Reconcile(rel + Discovered(rel, subs, jobs, ids), subs, x, jobs[x]) ==
      rel + Discovered(rel, subs, jobs, ids + {x})
  {
    var before := rel + Discovered(rel, subs, jobs, ids);
    var after := Reconcile(before, subs, x, jobs[x]);
    var d := Discovered(rel, subs, jobs, ids + {x});
    assert x in before <==> x in rel;
    forall k | k in after ensures k in rel + d && after[k] == (rel + d)[k] {
      if k != x {
        assert k in before;
      }
    }
  }

  /** Importing jobs in any order without repetitions adds exactly the
      discovered relations and keeps every existing one. */
  lemma {:induction false} ImportClosedForm(rel: map<JobId, Relation>, subs: map<SubmissionId, Submission>,
                                            jobs: map<JobId, Job>, order: seq<JobId>)
    requires AllIn(order, jobs) && Seqs.Distinct(order)
    ensures ImportRelations(rel, subs, jobs, order) == rel + Discovered(rel, subs, jobs, set k | k in order)
  {
    if order == [] {
      assert Discovered(rel, subs, jobs, set k | k in order) == map[];
    } else {
      var init, last := order[..|order| - 1], order[|order| - 1];
      assert order == init + [last];
      ImportClosedForm(rel, subs, jobs, init);
      assert (set k | k in order) == (set k | k in init) + {last};
      DiscoveredStep(rel, subs, jobs, (set k | k in init), last);
    }
  }

  /** Importing twice is the same as importing once. */
  lemma ImportIdempotent(rel: map<JobId, Relation>, subs: map<SubmissionId, Submission>,
                         jobs: map<JobId, Job>, order: seq<JobId>)
    requires AllIn(order, jobs) && Seqs.Distinct(order)
    ensures var once := ImportRelations(rel, subs, jobs, order);
      ImportRelations(once, subs, jobs, order) == once
  {
    var once := ImportRelations(rel, subs, jobs, order);
    ImportClosedForm(rel, subs, jobs, order);
    ImportClosedForm(once, subs, jobs, order);
    assert Discovered(once, subs, jobs, set k | k in order) == map[];
  }

  /** The failure hook calls for the jobs `ids`, in that order. */
  function FailureCalls(jobs: map<JobId, Job>, ids: seq<JobId>): (calls: seq<HookCall>)
    requires AllIn(ids, jobs)
    ensures |calls| == |ids|
    ensures forall i :: 0 <= i < |ids| ==> calls[i] == HookCall(OnFailure, ids[i], jobs[ids[i]])
  {
    seq(|ids|, i requires 0 <= i < |ids| => HookCall(OnFailure, ids[i], jobs[ids[i]]))
  }

  /** The backend call handling one job makes: the failure hook, when it gets
      past the early returns and its queue runs on the Database backend. */
  function JobHooks(rel: map<JobId, Relation>, subs: map<SubmissionId, Submission>,
                    queues: map<QueueId, Backend>, id: JobId, job: Job): seq<HookCall> {
    if ReachesBackend(rel, subs, id, job) && IsDatabase(queues, job.queueId) then [HookCall(OnFailure, id, job)] else []
  }

  /** The backend calls made while handling the jobs of `order` one after the other. */
  function ImportHooks(rel: map<JobId, Relation>, subs: map<SubmissionId, Submission>,
                       queues: map<QueueId, Backend>, jobs: map<JobId, Job>, order: seq<JobId>): seq<HookCall>
    requires AllIn(order, jobs)
  {
    if order == [] then []
    else
      var init, last := order[..|order| - 1], order[|order| - 1];
      ImportHooks(rel, subs, queues, jobs, init) + JobHooks(ImportRelations(rel, subs, jobs, init), subs, queues, last, jobs[last])
  }

  /** Whether an import calls the failure hook for a job: the job had no relation
      before the import (or has no loadable submission) and sits on a Database queue. */
  predicate ImportNotifies(rel: map<JobId, Relation>, subs: map<SubmissionId, Submission>,
                           queues: map<QueueId, Backend>, jobs: map<JobId, Job>, k: JobId) {
    k in jobs && ReachesBackend(rel, subs, k, jobs[k]) && IsDatabase(queues, jobs[k].queueId)
  }

  /** The jobs of `order` for which an import calls the failure hook, in order. */
  function Notified(rel: map<JobId, Relation>, subs: map<SubmissionId, Submission>,
                    queues: map<QueueId, Backend>, jobs: map<JobId, Job>, order: seq<JobId>): (r: seq<JobId>)
    ensures AllIn(r, jobs)
    ensures forall k :: k in r <==> k in order && ImportNotifies(rel, subs, queues, jobs, k)
  {
    var r := Seqs.Select(order, k => ImportNotifies(rel, subs, queues, jobs, k));
    assert forall i :: 0 <= i < |r| ==> r[i] in r;
    r
  }

  lemma FailureCallsAppend(jobs: map<JobId, Job>, ids: seq<JobId>, x: JobId)
    requires AllIn(ids, jobs) && x in jobs
    ensures AllIn(ids + [x], jobs)
    ensures FailureCalls(jobs, ids + [x]) == FailureCalls(jobs, ids) + [HookCall(OnFailure, x, jobs[x])]
  {
    assert AllIn(ids + [x], jobs);
  }

  /** An import over distinct jobs calls the failure hook once for each job that
      reaches the backend, judged against the relation table as it was before
      the import, in import order. */
  lemma {:induction false} ImportHooksClosedForm(rel: map<JobId, Relation>, subs: map<SubmissionId, Submission>,
                                                 queues: map<QueueId, Backend>, jobs: map<JobId, Job>, order: seq<JobId>)
    requires AllIn(order, jobs) && Seqs.Distinct(order)
    ensures ImportHooks(rel, subs, queues, jobs, order) == FailureCalls(jobs, Notified(rel, subs, queues, jobs, order))
  {
    if order != [] {
      var init, last := order[..|order| - 1], order[|order| - 1];
      assert order == init + [last];
      assert last !in init;
      ImportHooksClosedForm(rel, subs, queues, jobs, init);
      ImportClosedForm(rel, subs, jobs, init);
      var before := ImportRelations(rel, subs, jobs, init);
      assert last in before <==> last in rel;
      var sel := Notified(rel, subs, queues, jobs, init);
      if ImportNotifies(rel, subs, queues, jobs, last) {
        assert Notified(rel, subs, queues, jobs, order) == sel + [last];
        FailureCallsAppend(jobs, sel, last);
      } else {
        assert Notified(rel, subs, queues, jobs, order) == sel;
      }
    }
  }

  /** One step of an import, as a loop over a prefix of `order` takes it. */
  lemma ImportStep(rel: map<JobId, Relation>, subs: map<SubmissionId, Submission>,
                   queues: map<QueueId, Backend>, jobs: map<JobId, Job>, order: seq<JobId>, i: nat)
    requires AllIn(order, jobs) && i < |order|
    ensures AllIn(order[..i], jobs) && AllIn(order[..i + 1], jobs)
    ensures ImportRelations(rel, subs, jobs, order[..i + 1]) ==
      Reconcile(ImportRelations(rel, subs, jobs, order[..i]), subs, order[i], jobs[order[i]])
    ensures ImportHooks(rel, subs, queues, jobs, order[..i + 1]) ==
      ImportHooks(rel, subs, queues, jobs, order[..i]) +
      JobHooks(ImportRelations(rel, subs, jobs, order[..i]), subs, queues, order[i], jobs[order[i]])
  {
    assert order[..i + 1][..i] == order[..i];
  }

  /** Importing the whole job table in row order. */
  lemma ImportAll(rel: map<JobId, Relation>, subs: map<SubmissionId, Submission>,
                  queues: map<QueueId, Backend>, jobs: map<JobId, Job>)
    ensures AllIn(Seqs.Ascending(jobs.Keys), jobs)
    ensures ImportRelations(rel, subs, jobs, Seqs.Ascending(jobs.Keys)) == rel + Discovered(rel, subs, jobs, jobs.Keys)
    ensures ImportHooks(rel, subs, queues, jobs, Seqs.Ascending(jobs.Keys)) ==
      FailureCalls(jobs, Notified(rel, subs, queues, jobs, Seqs.Ascending(jobs.Keys)))
  {
    var order := Seqs.Ascending(jobs.Keys);
    Seqs.IncreasingIsDistinct(order);
    assert (set k | k in order) == jobs.Keys;
    ImportClosedForm(rel, subs, jobs, order);
    ImportHooksClosedForm(rel, subs, queues, jobs, order);
  }

  /** The relation table after deleting every relation of one submission. */
  function WithoutSubmission(rel: map<JobId, Relation>, sid: SubmissionId): (r: map<JobId, Relation>)
    ensures forall k :: k in r <==> k in rel && rel[k].submissionId != sid
    ensures forall k :: k in r ==> r[k] == rel[k]
  {
    map k | k in rel && rel[k].submissionId != sid :: rel[k]
  }

  /** The submission ids named by a list of rows. */
  function SubmissionIds(rows: seq<RelationRow>): (s: set<SubmissionId>)
    ensures forall sid :: sid in s <==> exists r :: r in rows && r.submissionId == sid
  {
    set r | r in rows :: r.submissionId
  }

  /** The relation table after scanning `rows`: every relation of a scanned
      submission that no longer exists is gone, everything else stays. */
  function Pruned(rel: map<JobId, Relation>, subs: map<SubmissionId, Submission>, rows: seq<RelationRow>): (r: map<JobId, Relation>)
    ensures forall k :: k in r ==> k in rel && r[k] == rel[k]
  {
    map k | k in rel && !(rel[k].submissionId in SubmissionIds(rows) && rel[k].submissionId !in subs) :: rel[k]
  }

  /** Scanning no rows deletes nothing. */
  lemma PrunedNothing(rel: map<JobId, Relation>, subs: map<SubmissionId, Submission>)
    ensures Pruned(rel, subs, []) == rel
  {
    assert SubmissionIds([]) == {};
  }

  /** Scanning one more row deletes the relations of its submission exactly when
      that submission no longer exists. */
  lemma PrunedStep(rel: map<JobId, Relation>, subs: map<SubmissionId, Submission>, rows: seq<RelationRow>, row: RelationRow)
    ensures Pruned(rel, subs, rows + [row]) ==
      if row.submissionId in subs then Pruned(rel, subs, rows)
      else WithoutSubmission(Pruned(rel, subs, rows), row.submissionId)
  {
    assert SubmissionIds(rows + [row]) == SubmissionIds(rows) + {row.submissionId} by {
      assert forall r :: r in rows + [row] <==> r in rows || r == row;
    }
  }

  /** The relation table after the cleanup sweep over the relations in scope. */
  function CleanedUp(rel: map<JobId, Relation>, subs: map<SubmissionId, Submission>, scope: Option<SubmissionId>): map<JobId, Relation> {
    Pruned(rel, subs, DetachedRelations(rel, scope))
  }

  /** The cleanup sweep keeps a relation exactly when it is out of scope or its
      submission still exists, and never changes a kept relation. */
  lemma CleanUpEffect(rel: map<JobId, Relation>, subs: map<SubmissionId, Submission>, scope: Option<SubmissionId>)
    ensures var after := CleanedUp(rel, subs, scope);
      (forall k :: k in after <==> k in rel && (!InScope(rel[k].submissionId, scope) || rel[k].submissionId in subs)) &&
      (forall k :: k in after ==> after[k] == rel[k])
  {
    var rows := DetachedRelations(rel, scope);
    forall k | k in rel && InScope(rel[k].submissionId, scope)
      ensures rel[k].submissionId in SubmissionIds(rows)
    {
      assert RelationRow(k, rel[k].submissionId) in rows;
    }
  }

  /** After a cleanup over every relation, each remaining relation points at an
      existing submission; running the sweep again changes nothing. */
  lemma CleanUpAll(rel: map<JobId, Relation>, subs: map<SubmissionId, Submission>)
    ensures forall k :: k in CleanedUp(rel, subs, None) ==> CleanedUp(rel, subs, None)[k].submissionId in subs
    ensures CleanedUp(CleanedUp(rel, subs, None), subs, None) == CleanedUp(rel, subs, None)
  {
    var once := CleanedUp(rel, subs, None);
    CleanUpEffect(rel, subs, None);
    assert forall k :: k in once ==> once[k].submissionId in subs;
    CleanUpEffect(once, subs, None);
    SameEntries(CleanedUp(once, subs, None), once);
  }

  /** Two tables with the same keys and the same relation under each key are equal. */
  lemma SameEntries(a: map<JobId, Relation>, b: map<JobId, Relation>)
    requires forall k :: k in a <==> k in b
    requires forall k :: k in a ==> a[k] == b[k]
    ensures a == b
  {
    assert forall k :: k in a.Keys <==> k in b.Keys;
    assert a.Keys == b.Keys;
    assert forall k :: k in a.Keys ==> a[k] == b[k];
  }
}
