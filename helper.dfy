/** The helper service of the failed-jobs module: it owns the relation table
    between advancedqueue jobs and webform submissions, fills it while jobs are
    processed or imported, prunes it, and resolves failed jobs by retrying them
    or by marking them as handled manually. The database tables it reads and
    writes are fields of the `Helper` object. */
module FailedJobsHelper {
  import opened Entities
  import opened Lookups
  import opened Reconciler
  import Seqs

  /** Every relation has a non-empty job id and a non-empty submission id: the
      relation step never writes any other. */
  predicate WellFormed(relations: map<JobId, Relation>) {
    WellFormedIds(relations) && forall k :: k in relations ==> relations[k].submissionId != 0
  }

  /** The job table after a call on the backend of a job's queue: the Database
      backend writes the job object it is handed back to its row (when the row
      exists) on a success or failure hook. */
  function AfterBackendCall(jobs: map<JobId, Job>, queues: map<QueueId, Backend>,
                            hook: Hook, id: JobId, job: Job): (r: map<JobId, Job>)
    ensures r.Keys == jobs.Keys
    ensures forall k :: k in r && k != id ==> r[k] == jobs[k]
    ensures id in r ==> r[id] == (if hook != Retry && IsDatabase(queues, job.queueId) then job else jobs[id])
    ensures id in jobs && job == jobs[id] ==> r == jobs
  {
    if hook != Retry && IsDatabase(queues, job.queueId) && id in jobs then jobs[id := job] else jobs
  }

  /** The submission log entry written when a job is selected for manual handling. */
  function ManualLogEntry(relations: map<JobId, Relation>, jobs: map<JobId, Job>, id: JobId, uid: int, now: int): (e: LogEntry)
    ensures e.webformId == WebformIdFromQueue(relations, id)
    ensures e.sid == SubmissionIdFromJob(jobs, id)
    ensures e.handlerId == "" && e.operation == ManualOperation && e.message == ManualMessage
    ensures e.uid == uid && e.timestamp == now
  {
    LogEntry(WebformIdFromQueue(relations, id), SubmissionIdFromJob(jobs, id), "", ManualOperation, uid, ManualMessage, now)
  }

  /** The job object a retry hands to the backend: failed, with no retries and
      no processing time. */
  function ResetForRetry(job: Job): (r: Job)
    ensures r.state == Failure && r.numRetries == 0 && r.processedTime == 0
    ensures r.queueId == job.queueId && r.payload == job.payload
    ensures r.available == job.available && r.message == job.message
  {
    job.(state := Failure, numRetries := 0, processedTime := 0)
  }

  class Helper {
    /** The advancedqueue table, keyed by job id. */
    var jobs: map<JobId, Job>
    /** The webform submission store, keyed by submission id. */
    var submissions: map<SubmissionId, Submission>
    /** The job-to-submission relation table, keyed by job id. */
    var relations: map<JobId, Relation>
    /** The queue entities, with the kind of backend each one runs on. */
    var queues: map<QueueId, Backend>
    /** The webform submission log. */
    var log: seq<LogEntry>
    /** The calls made on queue backends, oldest first. */
    var hooks: seq<HookCall>
    /** The id of the current user. */
    var currentUser: int

    ghost predicate Valid()
      reads this
    {
      WellFormed(relations)
    }

    constructor(jobs0: map<JobId, Job>, submissions0: map<SubmissionId, Submission>,
                relations0: map<JobId, Relation>, queues0: map<QueueId, Backend>, uid: int)
      requires WellFormed(relations0)
      ensures Valid()
      ensures jobs == jobs0 && submissions == submissions0 && relations == relations0 && queues == queues0
      ensures log == [] && hooks == [] && currentUser == uid
    {
      jobs, submissions, relations, queues := jobs0, submissions0, relations0, queues0;
      log, hooks, currentUser := [], [], uid;
    }

    /** Calls a hook on the backend of the job's queue. */
    method CallBackend(hook: Hook, id: JobId, job: Job)
      modifies this
      ensures hooks == old(hooks) + [HookCall(hook, id, job)]
      ensures jobs == AfterBackendCall(old(jobs), queues, hook, id, job)
      ensures submissions == old(submissions) && relations == old(relations) && queues == old(queues)
      ensures log == old(log) && currentUser == old(currentUser)
    {
      hooks := hooks + [HookCall(hook, id, job)];
      if hook != Retry && IsDatabase(queues, job.queueId) && id in jobs {
        jobs := jobs[id := job];
      }
    }

    /** Records the relation of a job about to be processed, unless it already
      has one, and then hands the job to the failure hook of a Database backend. */
    method HandleJob(id: JobId, job: Job)
      requires Valid()
      modifies this
      ensures Valid()
      ensures relations == Reconcile(old(relations), submissions, id, job)
      ensures hooks == old(hooks) + JobHooks(old(relations), submissions, queues, id, job)
      ensures jobs == if JobHooks(old(relations), submissions, queues, id, job) == [] then old(jobs)
                      else AfterBackendCall(old(jobs), queues, OnFailure, id, job)
      ensures submissions == old(submissions) && queues == old(queues)
      ensures log == old(log) && currentUser == old(currentUser)
    {
      var data := DataFromJob(submissions, job.payload);
      if data.Found? {
        // A submission that loads never has an empty id, so only the job id is tested.
        if id == 0 {
          return;
        }
        if id in relations {
          return;
        }
        relations := relations[id := Relation(data.submissionId, data.webformId)];
      }
      if IsDatabase(queues, job.queueId) {
        CallBackend(OnFailure, id, job);
      }
    }

    /** Handles every job of the advancedqueue table, in row order. */
    method HandleImport()
      requires Valid()
      modifies this
      ensures Valid()
      ensures relations == old(relations) + Discovered(old(relations), submissions, jobs, jobs.Keys)
      ensures hooks == old(hooks) + FailureCalls(jobs, Notified(old(relations), submissions, queues, jobs, Seqs.Ascending(jobs.Keys)))
      ensures jobs == old(jobs) && submissions == old(submissions) && queues == old(queues)
      ensures log == old(log) && currentUser == old(currentUser)
    {
      ImportAll(relations, submissions, queues, jobs);
      HandleJobs(jobs, Seqs.Ascending(jobs.Keys));
    }

    /** Handles the fetched jobs `all` in the order `order`; the job table stays
        as fetched, since each job is written back to its own row unchanged. */
    method HandleJobs(all: map<JobId, Job>, order: seq<JobId>)
      requires Valid()
      requires jobs == all && AllIn(order, all)
      modifies this
      ensures Valid()
      ensures relations == ImportRelations(old(relations), submissions, all, order)
      ensures hooks == old(hooks) + ImportHooks(old(relations), submissions, queues, all, order)
      ensures jobs == all && submissions == old(submissions) && queues == old(queues)
      ensures log == old(log) && currentUser == old(currentUser)
    {
      var i := 0;
      while i < |order|
        invariant 0 <= i <= |order|
        invariant jobs == all && submissions == old(submissions) && queues == old(queues)
        invariant log == old(log) && currentUser == old(currentUser)
        invariant Valid()
        invariant relations == ImportRelations(old(relations), submissions, all, order[..i])
        invariant hooks == old(hooks) + ImportHooks(old(relations), submissions, queues, all, order[..i])
      {
        var id := order[i];
        ImportStep(old(relations), submissions, queues, all, order, i);
        ghost var done := ImportHooks(old(relations), submissions, queues, all, order[..i]);
        ghost var step := JobHooks(relations, submissions, queues, id, all[id]);
        HandleJob(id, all[id]);
        Seqs.AppendAssociative(old(hooks), done, step);
        i := i + 1;
      }
      assert order[..i] == order;
    }

    /** Deletes every relation of one submission. */
    method RemoveQueueSubmissionRelation(sid: SubmissionId)
      requires Valid()
      modifies this
      ensures Valid()
      ensures relations == WithoutSubmission(old(relations), sid)
      ensures jobs == old(jobs) && submissions == old(submissions) && queues == old(queues)
      ensures log == old(log) && hooks == old(hooks) && currentUser == old(currentUser)
    {
      relations := WithoutSubmission(relations, sid);
    }

    /** Deletes the relations of every listed submission that no longer exists. */
    method RemoveRelations(rows: seq<RelationRow>)
      requires Valid()
      modifies this
      ensures Valid()
      ensures relations == Pruned(old(relations), submissions, rows)
      ensures jobs == old(jobs) && submissions == old(submissions) && queues == old(queues)
      ensures log == old(log) && hooks == old(hooks) && currentUser == old(currentUser)
    {
      PrunedNothing(relations, submissions);
      var i := 0;
      while i < |rows|
        invariant 0 <= i <= |rows|
        invariant Valid()
        invariant relations == Pruned(old(relations), submissions, rows[..i])
        invariant jobs == old(jobs) && submissions == old(submissions) && queues == old(queues)
        invariant log == old(log) && hooks == old(hooks) && currentUser == old(currentUser)
      {
        var row := rows[i];
        assert rows[..i + 1] == rows[..i] + [row];
        PrunedStep(old(relations), submissions, rows[..i], row);
        if row.submissionId !in submissions {
          RemoveQueueSubmissionRelation(row.submissionId);
        }
        i := i + 1;
      }
      assert rows[..i] == rows;
    }

    /** Prunes the relations in scope (all of them when no submission id is
        given) whose submission no longer exists. */
    method CleanUp(scope: Option<SubmissionId>)
      requires Valid()
      modifies this
      ensures Valid()
      ensures relations == CleanedUp(old(relations), submissions, scope)
      ensures forall k :: k in relations <==>
        k in old(relations) && (!InScope(old(relations)[k].submissionId, scope) || old(relations)[k].submissionId in submissions)
      ensures forall k :: k in relations ==> relations[k] == old(relations)[k]
      ensures jobs == old(jobs) && submissions == old(submissions) && queues == old(queues)
      ensures log == old(log) && hooks == old(hooks) && currentUser == old(currentUser)
    {
      CleanUpEffect(relations, submissions, scope);
      var rows := DetachedRelations(relations, scope);
      RemoveRelations(rows);
    }

    /** Marks a job on a Database queue as handled manually: the job object is
        set to success, an entry goes to the submission log and the backend's
        success hook gets the job. */
    method HandleManually(id: JobId, job: Job, now: int) returns (handled: Job)
      requires Valid()
      requires IsDatabase(queues, job.queueId)
      modifies this
      ensures Valid()
      ensures handled == job.(state := Success)
      ensures log == old(log) + [ManualLogEntry(old(relations), old(jobs), id, currentUser, now)]
      ensures hooks == old(hooks) + [HookCall(OnSuccess, id, handled)]
      ensures jobs == AfterBackendCall(old(jobs), queues, OnSuccess, id, handled)
      ensures id in jobs ==> jobs[id].state == Success
      ensures relations == old(relations) && submissions == old(submissions) && queues == old(queues)
      ensures currentUser == old(currentUser)
    {
      handled := job.(state := Success);
      log := log + [ManualLogEntry(relations, jobs, id, currentUser, now)];
      CallBackend(OnSuccess, id, handled);
    }

    /** Hands a job on a Database queue to the backend's retry, reset to a failed
        job with no retries and no processing time. */
    method RetryJob(id: JobId, job: Job) returns (reset: Job)
      requires Valid()
      requires IsDatabase(queues, job.queueId)
      modifies this
      ensures Valid()
      ensures reset == ResetForRetry(job)
      ensures hooks == old(hooks) + [HookCall(Retry, id, reset)]
      ensures jobs == old(jobs) && relations == old(relations) && submissions == old(submissions)
      ensures queues == old(queues) && log == old(log) && currentUser == old(currentUser)
    {
      reset := ResetForRetry(job);
      CallBackend(Retry, id, reset);
    }

    /** After a job was processed, hands a failed job to the failure hook of its
        queue's backend, whatever kind of backend it is. */
    method OnJobPostProcess(id: JobId, job: Job)
      requires Valid()
      modifies this
      ensures Valid()
      ensures hooks == old(hooks) +
        (if job.state == Failure && job.queueId in queues then [HookCall(OnFailure, id, job)] else [])
      ensures jobs == if job.state == Failure && job.queueId in queues
                      then AfterBackendCall(old(jobs), queues, OnFailure, id, job) else old(jobs)
      ensures relations == old(relations) && submissions == old(submissions) && queues == old(queues)
      ensures log == old(log) && currentUser == old(currentUser)
    {
      if job.queueId in queues && job.state == Failure {
        CallBackend(OnFailure, id, job);
      }
    }
  }
}
