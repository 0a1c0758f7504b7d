# os2forms_failed_jobs, modelled in Dafny

This module adds an error list to Drupal's advanced queue for jobs that
process webform submissions. It keeps a relation table from each queue job to
the submission and webform its payload names. From that table it lists the
failed jobs per form and per user, and it lets a user retry a failed job or
take it out of the list for manual handling.

The model covers these parts:

- **The relation table.** `handleJob`, `handleImport`, `cleanUp` and
  `removeRelations` in `FailedJobsHelper.Helper`. The closed forms they
  compute are in `Reconciler`.
- **Lookups from a job** to its submission id, serial number, creation time
  and webform (`Lookups`).
- **Retry and manual handling.** The helper, the two bulk actions
  (`RetryAction`, `HandleManuallyAction`), the two confirmation pages
  (`RetryJobForm`, `HandleJobManuallyForm`), the bulk form (`BulkForm`) and
  its confirmation and batch (`BulkConfirmForm`).
- **The list pages** (`Controller`), the view filters (`ViewsFilters`) and
  the "next attempt" column (`NextAttempt`).

How the storage is represented:

- Database tables are fields of the `Helper` class:
  - `jobs`: the advancedqueue table;
  - `submissions`;
  - `relations`: the relation table;
  - `queues`: each queue's backend kind;
  - `log`: the submission log.
- Every call into a queue backend (`onFailure`, `onSuccess`, `retryJob`) is
  appended to `hooks` together with the job handed over. The Database backend
  saves that job, so `jobs` changes too when the queue runs on it.
- Ids follow the source's `empty()` tests. Job and submission ids are
  integers, with 0 as the empty id.
- A query without an `ORDER BY` returns its rows in ascending key order in
  the model (`Seqs.Ascending`).
- Clocks, the current user, form input and the list of webforms are
  parameters.

## Model

| member | source | states |
|---|---|---|
| Lookups.SubmissionIdShapes | src/Helper/Helper.php:599-601 | The submission id is the top-level `submissionId` when present, else the nested `submission.id`, else none. |
| Lookups.SubmissionIdFromJob | src/Helper/Helper.php:91-99 | A missing job has no submission id. An existing job's id is the one its payload names. |
| Lookups.DataFromJob | src/Helper/Helper.php:363-387 | Data is found iff the payload's submission id is non-empty and that submission exists. The webform id is then that submission's form. An empty id is told apart from a missing submission. |
| Lookups.WebformIdFromQueue | src/Helper/Helper.php:221-229 | The relation's webform id, present iff the job has a relation. |
| Lookups.LoadedSubmission | src/Helper/Helper.php:242-261 | The submission loads iff the job's submission id is non-empty and stored. |
| Lookups.SerialFromJob | src/Helper/Helper.php:242-261 | The loaded submission's serial number, or 0 when it does not load. |
| Lookups.CreatedFromJob | src/Helper/Helper.php:112-131 | The loaded submission's creation time, or 0 when it does not load. |
| Lookups.InCreatedRangeCases | src/Helper/Helper.php:278-302 | Three cases. No submission id gives false. A missing submission or an open bound gives true. Otherwise `min <= created <= max`. |
| Lookups.RelationJobIds | src/Plugin/views/filter/SubmissionCreatedFilter.php:63-65 | Exactly the relation job ids, each once. |
| Lookups.QueueJobIds | src/Helper/Helper.php:146-152 | Exactly the relation job ids of one form, each once. |
| Lookups.QueueJobIdsFromSubmissionId | src/Helper/Helper.php:317-323 | Exactly the relation job ids of one submission, each once. |
| Lookups.SubmissionWithSerial | src/Helper/Helper.php:340-350 | A submission of the form with that serial number, or none when no such submission exists. |
| Lookups.QueueJobIdsFromSerial | src/Helper/Helper.php:340-350 | With no matching submission the list is empty. Otherwise it holds exactly the relation job ids of that submission. |
| Lookups.RowsOf | src/Helper/Helper.php:402-409 | One relation row per job id, with that job's submission id. |
| Lookups.DetachedRelations | src/Helper/Helper.php:402-410 | The scanned rows are exactly the relations in scope: all of them, or those of one submission. |
| Reconciler.NewRelation | src/Helper/Helper.php:162-184 | A relation is built iff the job id is non-zero and the payload's submission exists. Its values come from that submission. |
| Reconciler.ReconcileEffect | src/Helper/Helper.php:166-184 | `handleJob` adds a relation only for a new job id with usable data. An existing relation is never overwritten (first write wins). No other key changes. |
| Reconciler.ReconcileIdempotent | src/Helper/Helper.php:170-184 | Handling the same job twice leaves the table as handling it once. |
| Reconciler.Discovered | src/Helper/Helper.php:174-184 | The relations an import adds: exactly the scanned, unrelated jobs with usable data. |
| Reconciler.ImportClosedForm | src/Helper/Helper.php:203-208 | Folding `handleJob` over distinct job ids gives the old table plus the discovered relations, in any order. |
| Reconciler.ImportIdempotent | src/Helper/Helper.php:203-208 | A second import leaves the relation table unchanged. |
| Reconciler.FailureCalls | src/Helper/Helper.php:187-197 | One `onFailure` call per listed job, in order, each carrying the stored job. |
| Reconciler.Notified | src/Helper/Helper.php:187-197 | The imported jobs that reach `onFailure`: those without usable data, or newly related, on a Database queue. |
| Reconciler.ImportHooksClosedForm | src/Helper/Helper.php:203-208 | The backend calls of an import are exactly the `onFailure` calls of the notified jobs, in scan order. |
| Reconciler.ImportAll | src/Helper/Helper.php:203-208 | Over the whole queue table in row order, an import adds the discovered relations and makes the notified calls. |
| Reconciler.WithoutSubmission | src/Helper/Helper.php:644-651 | Every relation of the submission is removed and every other relation is kept as it was. |
| Reconciler.Pruned | src/Helper/Helper.php:422-438 | Removing detached rows only deletes relations and never changes one. |
| Reconciler.CleanUpEffect | src/Helper/Helper.php:448-451 | After a clean-up, a relation is kept iff it was out of scope or its submission still exists. Kept values are unchanged. |
| Reconciler.CleanUpAll | src/Helper/Helper.php:448-451 | After a full clean-up every relation's submission exists, and a second clean-up changes nothing. |
| FailedJobsHelper.AfterBackendCall | src/Helper/Helper.php:461-511 | A success or failure call on a Database queue stores the job handed over. Retry and other backends store nothing. Handing over the stored job changes nothing. |
| FailedJobsHelper.ManualLogEntry | src/Helper/Helper.php:465-475 | The manual-handling log entry carries the relation's webform id, the payload's submission id, the fixed operation and message, the user and the time. |
| FailedJobsHelper.ResetForRetry | src/Helper/Helper.php:502-504 | A retried job has state failure, 0 retries and processed time 0. Its queue, payload, availability and message are kept. |
| FailedJobsHelper.Helper.constructor | src/Helper/Helper.php:43-49 | The helper starts on the given tables with an empty log and no backend calls. |
| FailedJobsHelper.Helper.CallBackend | src/Helper/Helper.php:187-197 | Records one backend call. The job table changes as the Database backend saves the job. |
| FailedJobsHelper.Helper.HandleJob | src/Helper/Helper.php:162-198 | The relation table becomes the reconciled one. `onFailure` is called iff the job passed the early returns and its queue is a Database queue. |
| FailedJobsHelper.Helper.HandleImport | src/Helper/Helper.php:203-208 | The relation table gains exactly the discovered relations, and the notified jobs get their `onFailure` calls. |
| FailedJobsHelper.Helper.HandleJobs | src/Helper/Helper.php:203-208 | The loop equals the fold of `handleJob` over the given order, both for the relation table and for the backend calls. |
| FailedJobsHelper.Helper.RemoveQueueSubmissionRelation | src/Helper/Helper.php:644-651 | Deletes every relation of the submission and nothing else. |
| FailedJobsHelper.Helper.RemoveRelations | src/Helper/Helper.php:422-438 | Each row whose submission no longer exists deletes every relation of that submission. |
| FailedJobsHelper.Helper.CleanUp | src/Helper/Helper.php:448-451 | A relation is kept iff it is out of scope or its submission exists, with its values unchanged. |
| FailedJobsHelper.Helper.HandleManually | src/Helper/Helper.php:461-490 | The job is set to success. Exactly one manual log entry is appended, then `onSuccess` is called with the job. |
| FailedJobsHelper.Helper.RetryJob | src/Helper/Helper.php:500-511 | Whatever the job's state, it is reset and handed to the backend's retry. Nothing else changes. |
| FailedJobsHelper.Helper.OnJobPostProcess | src/Helper/Helper.php:529-546 | `onFailure` is called iff the job is in state failure and its queue exists. |
| RetryAction.Execute | src/Plugin/Action/RetryJob.php:87-106 | Exactly one retry call, with the job as stored, iff the job exists, runs on a Database queue and has failed. Otherwise nothing changes. |
| HandleManuallyAction.Execute | src/Plugin/Action/HandleManually.php:86-116 | An existing job on a Database queue ends in success, with two `onSuccess` calls and one log entry, whatever its prior state. Otherwise nothing changes. |
| RetryJobForm.Question | src/Form/RetryJob.php:57-75 | "Job not found" iff the job is missing. The job-id wording iff there is no relation. Otherwise the form's label and the serial. |
| RetryJobForm.CancelPage | src/Form/RetryJob.php:80-92 | The form's error log iff the job has a relation. Otherwise its queue's job list. |
| RetryJobForm.SubmitForm | src/Form/RetryJob.php:112-126 | An existing job on a Database queue is retried through the helper, with no state check. Otherwise nothing changes. |
| HandleJobManuallyForm.Question | src/Form/HandleJobManually.php:55-73 | "Job not found" iff the job is missing. The retry wording iff there is no relation. Otherwise the manual wording with the serial. |
| HandleJobManuallyForm.CancelPage | src/Form/HandleJobManually.php:78-80 | Always the personal error log. |
| HandleJobManuallyForm.SubmitForm | src/Form/HandleJobManually.php:102-116 | An existing job on a Database queue is handled manually, with no state check. Otherwise nothing changes. |
| BulkForm.Checked | src/Plugin/views/field/AdvancedQueueBulkForm.php:162-163 | Only the truthy checkbox values are selected. |
| BulkForm.FailedIn | src/Plugin/views/field/AdvancedQueueBulkForm.php:168-182 | A selected job enters the action set iff it exists and has failed. |
| BulkForm.Errors | src/Plugin/views/field/AdvancedQueueBulkForm.php:171-176 | Exactly one error per selected job that exists and has not failed, in selection order. Each error carries that job's submission serial and state. |
| BulkForm.FirstMissing | src/Plugin/views/field/AdvancedQueueBulkForm.php:170-171 | The first selected id whose job is missing, which stops the walk. |
| BulkForm.EntitySet | src/Plugin/views/field/AdvancedQueueBulkForm.php:181 | The action set maps each job id to itself. |
| BulkForm.ViewsFormSubmit | src/Plugin/views/field/AdvancedQueueBulkForm.php:157-208 | The outcome equals the specification `Submit`: no run outside the views step, the failed jobs collected, an error for every other job, no execution when the count is 0. |
| BulkForm.Walk | src/Plugin/views/field/AdvancedQueueBulkForm.php:168-182 | The walk over the selection stops at the first missing job. Otherwise it collects exactly the failed selected jobs into the action set, counts them, and reports every other selected job. |
| BulkForm.Partition | src/Plugin/views/field/AdvancedQueueBulkForm.php:168-182 | Every existing selected job is either counted or reported, never both. |
| BulkForm.DistinctCount | src/Plugin/views/field/AdvancedQueueBulkForm.php:179-181 | For distinct ids, the count equals the size of the action set. |
| BulkForm.AppliedOutcome | src/Plugin/views/field/AdvancedQueueBulkForm.php:179-206 | When the action runs, it runs once on exactly the failed selected jobs. The count and the errors add up to the selection. With no confirm route a message is shown. With a confirm route the user is redirected to it instead. |
| BulkForm.NothingAppliedOutcome | src/Plugin/views/field/AdvancedQueueBulkForm.php:184-188 | With no failed job selected, nothing is executed and every selected job is reported. |
| BulkConfirmForm.DescriptionOf | src/Form/BulkConfirmForm.php:64-75 | "No selections" iff nothing is stored. Otherwise the action label and the number of stored ids. |
| BulkConfirmForm.BuildOperations | src/Form/BulkConfirmForm.php:94-101 | One operation per non-empty job id, in selection order, each with the selection's action id. |
| BulkConfirmForm.SubmitForm | src/Form/BulkConfirmForm.php:83-107 | With a stored selection: a batch of those operations, and the selection is deleted. Otherwise no batch and nothing deleted. |
| BulkConfirmForm.BatchProcess | src/Form/BulkConfirmForm.php:112-124 | A non-empty id runs its action and is appended to the processed ids. Retry hands a failed Database-queue job to the backend's retry and changes no job. Handle manually marks a Database-queue job as a success, makes two onSuccess calls and writes one log entry. An unknown action fails the batch, and an empty id changes nothing. |
| BulkConfirmForm.BatchFinished | src/Form/BulkConfirmForm.php:129-137 | An error iff the batch failed. Otherwise the number of processed ids. |
| Controller.RenderArgument | src/Controller/Controller.php:84-93 | The comma-joined argument splits back into the form's relation job ids. |
| Controller.UpdatableJobIdsMembers | src/Controller/Controller.php:107-115 | Job ids are collected exactly from the listed forms the user may update. |
| Controller.CollectUpdatable | src/Controller/Controller.php:109-114 | The loop appends the relation job ids of each updatable form, form after form, before duplicates are removed. |
| Controller.MyFormErrors | src/Controller/Controller.php:107-128 | The list holds the collected ids without duplicates, first occurrence kept. Every relation job id of an updatable form is present. |
| Controller.SingleFormErrors | src/Controller/Controller.php:107-128 | With one updatable form, the personal list is that form's list. |
| Controller.MyFormErrorsArgument | src/Controller/Controller.php:117-120 | The comma-joined argument splits back into the personal list. |
| Controller.JobMessageOf | src/Controller/Controller.php:138-155 | "Job not found" iff the job is missing. Otherwise its stored message. |
| ViewsFilters.ViewQuery.AddWhere | src/Plugin/views/filter/SubmissionCreatedFilter.php:78 | Appends one `IN` condition to the query. |
| ViewsFilters.OrMatchNothing | src/Plugin/views/filter/SubmissionCreatedFilter.php:73-76 | The list is never empty. An empty list becomes `[0]` and any other list is kept. |
| ViewsFilters.CreatedMatches | src/Plugin/views/filter/SubmissionCreatedFilter.php:63-72 | A relation job id is kept iff it passes the created-range test. |
| ViewsFilters.CreatedJobIds | src/Plugin/views/filter/SubmissionCreatedFilter.php:56-79 | The relation job ids that pass the created-range test, in row order, or `[0]` when none passes. |
| ViewsFilters.KeepInCreatedRange | src/Plugin/views/filter/SubmissionCreatedFilter.php:68-72 | The loop keeps exactly the candidate ids that pass the created-range test, in row order. |
| ViewsFilters.CreatedQuery | src/Plugin/views/filter/SubmissionCreatedFilter.php:56-79 | The condition is always added. |
| ViewsFilters.ExistingMatches | src/Plugin/views/filter/SubmissionExistsFilter.php:66-71 | A form's relation job id is kept iff its submission's serial is positive. |
| ViewsFilters.ExistingJobIds | src/Plugin/views/filter/SubmissionExistsFilter.php:66-76 | The form's relation job ids with a positive serial, in row order, or `[0]` when none is kept. |
| ViewsFilters.KeepExisting | src/Plugin/views/filter/SubmissionExistsFilter.php:67-71 | The loop keeps exactly the candidate ids whose submission serial is positive, in row order. |
| ViewsFilters.ExistsQuery | src/Plugin/views/filter/SubmissionExistsFilter.php:55-79 | Without a form nothing is added. With one the condition is always added. |
| ViewsFilters.SerialQuery | src/Plugin/views/filter/SubmissionSerialFilter.php:55-74 | Without a form nothing is added. With one, the serial's job ids (or `[0]`) are added. |
| ViewsFilters.SerialCondition | src/Plugin/views/filter/SubmissionSerialFilter.php:66-72 | The condition is `[0]` and matches no relation when no submission has the serial. Otherwise it holds exactly that submission's job ids. |
| ViewsFilters.IdCondition | src/Plugin/views/filter/SubmissionIdFilter.php:64-70 | A condition, always `[0]`, is added iff no relation has that submission id. |
| ViewsFilters.IdQuery | src/Plugin/views/filter/SubmissionIdFilter.php:55-71 | Adds `[0]` when the submission has no job, and nothing otherwise. |
| ViewsFilters.MatchingWebforms | src/Plugin/views/filter/WebformLabelFilter.php:63-65 | Exactly the forms whose title contains the input, in order. |
| ViewsFilters.FormsJobIdsMembers | src/Plugin/views/filter/WebformLabelFilter.php:68-72 | A job id is listed iff its relation names one of the forms. |
| ViewsFilters.FormsJobIdsAppend | src/Plugin/views/filter/WebformLabelFilter.php:70 | The lists of several forms are concatenated with no deduplication. |
| ViewsFilters.LabelJobIds | src/Plugin/views/filter/WebformLabelFilter.php:63-72 | The list is `[0]` followed by the job ids of the forms whose title contains the input, form after form. |
| ViewsFilters.AppendFormsJobIds | src/Plugin/views/filter/WebformLabelFilter.php:66-72 | The loop starts from `[0]` and appends each form's relation job ids in order. |
| ViewsFilters.LabelJobIdsMembers | src/Plugin/views/filter/WebformLabelFilter.php:66-72 | The list starts with 0. Its remaining ids are exactly the relation job ids of forms whose title contains the input. |
| ViewsFilters.LabelQuery | src/Plugin/views/filter/WebformLabelFilter.php:55-75 | The condition is always added. |
| NextAttempt.WaitParts | src/Plugin/views/field/NextAttempt.php:79-82 | The countdown is clock-ordered (days, hours under 24, minutes under 60, no zero part). It is within a minute below the wait, and empty iff the wait is under a minute. |
| NextAttempt.WaitPartsUnique | src/Plugin/views/field/NextAttempt.php:79-82 | Any clock-ordered countdown within a minute below the wait is the one shown. |
| NextAttempt.TitleOf | src/Plugin/views/field/NextAttempt.php:69-93 | Failure overrides everything. An unset time gives no title. A time in the past gives "awaiting cron". Otherwise "< 1 minute" iff the wait is under a minute, else the countdown. |
| NextAttempt.CountdownShape | src/Plugin/views/field/NextAttempt.php:79-85 | A countdown has one to three parts and stands for the wait rounded down to the minute. |
| NextAttempt.Render | src/Plugin/views/field/NextAttempt.php:95-104 | The title is shown iff the row's job has a relation whose webform id is truthy. |

## Left out

- Lookups.InCreatedRange: the range bounds are taken as integer timestamps. The source compares the raw values of the date filter with a DrupalDateTime object using PHP's loose comparison, and that comparison is not modelled. A zero bound counts as set here, while the source's `!empty` check treats `0` and `"0"` as no bound.
- Queue backends. What `onFailure`, `onSuccess` and `retryJob` do beyond saving the handed-over job on the Database backend is not visible here. This covers availability, back-off and re-queueing. A retry is recorded but not saved.
- Row order. Queries without `ORDER BY` are taken in ascending key order. Webform storage listings are passed in as sequences.
- A missing queue entity. The source fails on it (a method call on null); the model treats it as a queue that makes no backend call.
- Storage failures. Exceptions from entity storage or the database, and the logging of them, are not modelled.
- Bulk form: a selected job that no longer exists ends the submission (`Aborted`), as the source fails when it reads the state.
- BulkForm.ViewsFormSubmit: the action's execution on the set is recorded in the `Applied` outcome. Running each action on a job is modelled by `BulkConfirmForm.BatchProcess`.
- The tempstore writer that fills the bulk confirmation selection is not part of this model; the selection is a field of `TempStore`.
- BulkConfirmForm.BatchFinished: a batch that succeeded without a processed list reports `NoProcessedList`; the source's count of an unset list is not modelled.
- ViewsFilters.MatchingWebforms: the entity query's `CONTAINS` compares titles case-insensitively; the model compares characters exactly.
- The confirmation pages load the related form to show its label. The model takes a `labels` map from form id to label instead.
- ViewsFilters.SerialQuery: when no submission has the serial, the source looks up jobs for a `false` submission id. The model takes that lookup to find no job. When several submissions share the serial, the model takes the one with the lowest id.
- Translation, messenger messages, links and URLs are not modelled. Questions, pages, errors and titles are datatypes instead of text.
- Concurrency. Two imports or handlers racing on the same job id are not modelled; first-write-wins is a sequential property here.
- `tableExists` checks and the SQL builders are not modelled. Tables are maps.
- src/Plugin/action/RetryJob.php, a non-working duplicate of the retry action that calls into the queue processor, is not modelled.
- src/Plugin/views/filter/SubmissionExistsGlobalFilter.php calls a helper method that does not exist in src/Helper/Helper.php; it is not modelled.
- The render-only view fields are not modelled: webform label, id, submission id, serial, created, queue operations, maximum retries, retry strategy and the retry link.
- The event subscriber and the drush commands only delegate to `handleJob`, `onJobPostProcess` and `handleImport`. Those helper methods are modelled directly.
- NextAttempt.TitleOf: time zones and daylight saving time are not modelled. Timestamps are whole seconds, and a day is 86400 seconds.
