/** What the two confirmation pages for a single job show: the question asked
    and the page a cancel goes back to. */
module FormPages {
  import opened Entities

  /** The resolution a confirmation page asks about. */
  datatype Resolution = RetryResolution | ManualResolution

  datatype Question =
    | JobNotFound
      /** The job has no relation: the question names the job id. */
    | QueueJobQuestion(resolution: Resolution, jobId: JobId)
      /** The job is related to a form: the question names the form's label and
          the submission's serial number (0 when the submission is gone). */
    | WebformQuestion(resolution: Resolution, webformLabel: string, serial: int)
      /** The related form no longer exists; the page cannot be built. */
    | WebformMissing

  datatype Page =
    | WebformErrorLog(webformId: WebformId)
    | QueueJobsView(queueId: QueueId)
    | PersonalizedErrorLog
      /** No page can be built (neither a relation nor the job exists). */
    | NoPage
}

/** The page that asks to confirm a retry of one job. */
module RetryJobForm {
  import opened Entities
  import opened Lookups
  import opened FailedJobsHelper
  import opened FormPages

  /** The question the page asks about job `id`; `labels` maps each existing form to its label. */
  function Question(jobs: map<JobId, Job>, subs: map<SubmissionId, Submission>, relations: map<JobId, Relation>,
                    labels: map<WebformId, string>, id: JobId): (q: Question)
    ensures q == JobNotFound <==> id !in jobs
    ensures q == QueueJobQuestion(RetryResolution, id) <==> id in jobs && id !in relations
    ensures q.WebformQuestion? <==> id in jobs && id in relations && relations[id].webformId in labels
    ensures q.WebformQuestion? ==>
      q.resolution == RetryResolution && q.webformLabel == labels[relations[id].webformId] &&
      q.serial == SerialFromJob(jobs, subs, id)
    ensures q == WebformMissing <==> id in jobs && id in relations && relations[id].webformId !in labels
  {
    if id !in jobs then JobNotFound
    else
      match WebformIdFromQueue(relations, id)
      case None => QueueJobQuestion(RetryResolution, id)
      case Some(wf) =>
        if wf in labels then WebformQuestion(RetryResolution, labels[wf], SerialFromJob(jobs, subs, id))
        else WebformMissing
  }

  /** Cancelling goes back to the form's error log when the job has a relation,
      otherwise to the job list of its queue. */
  function CancelPage(jobs: map<JobId, Job>, relations: map<JobId, Relation>, id: JobId): (p: Page)
    ensures id in relations ==> p == WebformErrorLog(relations[id].webformId)
    ensures id !in relations && id in jobs ==> p == QueueJobsView(jobs[id].queueId)
    ensures p == NoPage <==> id !in relations && id !in jobs
  {
    match WebformIdFromQueue(relations, id)
    case Some(wf) => WebformErrorLog(wf)
    case None => if id in jobs then QueueJobsView(jobs[id].queueId) else NoPage
  }

  /** Retries job `id` through the helper when it exists on a Database queue,
      whatever state it is in. */
  method SubmitForm(h: Helper, id: JobId)
    requires h.Valid()
    modifies h
    ensures h.Valid()
    ensures h.hooks == old(h.hooks) +
      (if id in old(h.jobs) && IsDatabase(h.queues, old(h.jobs)[id].queueId)
       then [HookCall(Retry, id, ResetForRetry(old(h.jobs)[id]))] else [])
    ensures h.jobs == old(h.jobs) && h.relations == old(h.relations) && h.submissions == old(h.submissions)
    ensures h.queues == old(h.queues) && h.log == old(h.log) && h.currentUser == old(h.currentUser)
  {
    if id in h.jobs {
      var job := h.jobs[id];
      if IsDatabase(h.queues, job.queueId) {
        var _ := h.RetryJob(id, job);
      }
    }
  }
}

/** The page that asks to confirm that one job is handled manually. */
module HandleJobManuallyForm {
  import opened Entities
  import opened Lookups
  import opened FailedJobsHelper
  import opened FormPages

  /** The question the page asks about job `id`. A job without a relation gets
      the retry wording, as the page is written. */
  function Question(jobs: map<JobId, Job>, subs: map<SubmissionId, Submission>, relations: map<JobId, Relation>,
                    labels: map<WebformId, string>, id: JobId): (q: Question)
    ensures q == JobNotFound <==> id !in jobs
    ensures q == QueueJobQuestion(RetryResolution, id) <==> id in jobs && id !in relations
    ensures q.WebformQuestion? <==> id in jobs && id in relations && relations[id].webformId in labels
    ensures q.WebformQuestion? ==>
      q.resolution == ManualResolution && q.webformLabel == labels[relations[id].webformId] &&
      q.serial == SerialFromJob(jobs, subs, id)
    ensures q == WebformMissing <==> id in jobs && id in relations && relations[id].webformId !in labels
  {
    if id !in jobs then JobNotFound
    else
      match WebformIdFromQueue(relations, id)
      case None => QueueJobQuestion(RetryResolution, id)
      case Some(wf) =>
        if wf in labels then WebformQuestion(ManualResolution, labels[wf], SerialFromJob(jobs, subs, id))
        else WebformMissing
  }

  /** Cancelling always goes back to the personal error log. */
  function CancelPage(): (p: Page)
    ensures p == PersonalizedErrorLog
  {
    PersonalizedErrorLog
  }

  /** Hands job `id` to the helper's manual handling when it exists on a
      Database queue. */
  method SubmitForm(h: Helper, id: JobId, now: int)
    requires h.Valid()
    modifies h
    ensures h.Valid()
    ensures id in old(h.jobs) && IsDatabase(h.queues, old(h.jobs)[id].queueId) ==>
      var done := old(h.jobs)[id].(state := Success);
      h.jobs == old(h.jobs)[id := done] &&
      h.hooks == old(h.hooks) + [HookCall(OnSuccess, id, done)] &&
      h.log == old(h.log) + [ManualLogEntry(h.relations, old(h.jobs), id, h.currentUser, now)]
    ensures !(id in old(h.jobs) && IsDatabase(h.queues, old(h.jobs)[id].queueId)) ==>
      h.jobs == old(h.jobs) && h.hooks == old(h.hooks) && h.log == old(h.log)
    ensures h.relations == old(h.relations) && h.submissions == old(h.submissions)
    ensures h.queues == old(h.queues) && h.currentUser == old(h.currentUser)
  {
    if id in h.jobs {
      var job := h.jobs[id];
      if IsDatabase(h.queues, job.queueId) {
        var _ := h.HandleManually(id, job, now);
      }
    }
  }
}
