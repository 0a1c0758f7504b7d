/** Value types shared by the model: the rows of the advancedqueue job table, the
    webform submission store, the job-to-submission relation table, the submission
    log and the calls made on a queue backend. */
module Entities {

  datatype Option<T> = None | Some(value: T)

  /** Job and submission ids are integer keys; PHP's `empty()` on such an id is `id == 0`. */
  type JobId = int
  type SubmissionId = int
  type WebformId = string
  type QueueId = string

  /** The states an advancedqueue job can be in. */
  datatype JobState = Queued | Processing | Success | Failure

  /** A job payload, reduced to the two legacy places a submission id is kept:
      a top-level `submissionId` key and a nested `submission.id` key. */
  datatype Payload = Payload(submissionId: Option<int>, nestedSubmissionId: Option<int>)

  /** A row of the advancedqueue table (its key, the job id, is the map key). */
  datatype Job = Job(
    queueId: QueueId,
    state: JobState,
    numRetries: int,
    processedTime: int,
    available: int,
    message: string,
    payload: Payload)

  /** A webform submission as far as this module reads it. */
  datatype Submission = Submission(webformId: WebformId, serial: int, created: int)

  /** A row of the relation table; its key, the job id, is the map key. */
  datatype Relation = Relation(submissionId: SubmissionId, webformId: WebformId)

  /** A relation row as the pruning query returns it. */
  datatype RelationRow = RelationRow(jobId: JobId, submissionId: SubmissionId)

  /** The backend plugin of a queue: the Database backend or any other one. */
  datatype Backend = DatabaseBackend | OtherBackend

  /** A call made on a queue backend, recorded in the order it was made, with
      the job object handed to it. */
  datatype Hook = OnFailure | OnSuccess | Retry
  datatype HookCall = HookCall(hook: Hook, jobId: JobId, job: Job)

  /** An entry of the webform submission log. */
  datatype LogEntry = LogEntry(
    webformId: Option<WebformId>,
    sid: Option<int>,
    handlerId: string,
    operation: string,
    uid: int,
    message: string,
    timestamp: int)

  const ManualOperation: string := "selected for manual handling"
  const ManualMessage: string := "Submission removed from error log. Selected for manual handling."
}
