/** The bulk action that retries one failed job. Unlike the retry form, it leaves
    the job's retry count and processing time alone and skips any job that is
    not in the failure state. */
module RetryAction {
  import opened Entities
  import opened Lookups
  import opened FailedJobsHelper

  /** The action id under which the bulk form offers this action. */
  const Id: string := "advancedqueue_queue_retry_action"
  const Label: string := "Retry processing"

  /** Whether the action reaches the backend for a job: the job exists, its
      queue runs on the Database backend and it has failed. */
  predicate Applies(jobs: map<JobId, Job>, queues: map<QueueId, Backend>, id: JobId) {
    id in jobs && IsDatabase(queues, jobs[id].queueId) && jobs[id].state == Failure
  }

  /** Hands a failed job, as it is stored, to its backend's retry. */
  method Execute(h: Helper, id: JobId)
    requires h.Valid()
    modifies h
    ensures h.Valid()
    ensures h.hooks == old(h.hooks) + (if Applies(old(h.jobs), h.queues, id) then [HookCall(Retry, id, old(h.jobs)[id])] else [])
    ensures h.jobs == old(h.jobs) && h.relations == old(h.relations) && h.submissions == old(h.submissions)
    ensures h.queues == old(h.queues) && h.log == old(h.log) && h.currentUser == old(h.currentUser)
  {
    if id !in h.jobs {
      return;
    }
    var job := h.jobs[id];
    if IsDatabase(h.queues, job.queueId) {
      if job.state != Failure {
        return;
      }
      h.CallBackend(Retry, id, job);
    }
  }
}

/** The bulk action that takes a job out of the error list for manual handling.
    It marks the job as a success through the backend itself and then once more
    through the helper, which also writes the submission log entry. */
module HandleManuallyAction {
  import opened Entities
  import opened Lookups
  import opened FailedJobsHelper

  const Id: string := "advancedqueue_queue_handle_manually_action"
  const Label: string := "Handle manually"

  /** Whether the action does anything: the job exists and its queue runs on the
      Database backend. */
  predicate Applies(jobs: map<JobId, Job>, queues: map<QueueId, Backend>, id: JobId) {
    id in jobs && IsDatabase(queues, jobs[id].queueId)
  }

  method Execute(h: Helper, id: JobId, now: int)
    requires h.Valid()
    modifies h
    ensures h.Valid()
    ensures Applies(old(h.jobs), h.queues, id) ==>
      var done := old(h.jobs)[id].(state := Success);
      h.jobs == old(h.jobs)[id := done] &&
      h.hooks == old(h.hooks) + [HookCall(OnSuccess, id, done), HookCall(OnSuccess, id, done)] &&
      h.log == old(h.log) + [ManualLogEntry(h.relations, old(h.jobs), id, h.currentUser, now)]
    ensures !Applies(old(h.jobs), h.queues, id) ==>
      h.jobs == old(h.jobs) && h.hooks == old(h.hooks) && h.log == old(h.log)
    ensures h.relations == old(h.relations) && h.submissions == old(h.submissions)
    ensures h.queues == old(h.queues) && h.currentUser == old(h.currentUser)
  {
    if id in h.jobs {
      var job := h.jobs[id];
      if IsDatabase(h.queues, job.queueId) {
        h.CallBackend(OnSuccess, id, job.(state := Success));
      }
    }
    // The job is loaded again, as the backend has written it.
    if id !in h.jobs {
      return;
    }
    var job := h.jobs[id];
    if IsDatabase(h.queues, job.queueId) {
      var _ := h.HandleManually(id, job, now);
    }
  }
}
