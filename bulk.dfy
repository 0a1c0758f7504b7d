/** The bulk-operations field of the failed-jobs view: of the checked rows it
    keeps the failed jobs for the chosen action and reports every other one. */
module BulkForm {
  import opened Entities
  import opened Lookups
  import Seqs

  /** The form step on which the bulk form acts. */
  const ViewsFormStep: string := "views_form_views_form"

  /** An action the form can apply: its id, its label (`name`) and, optionally, the route
      of a confirmation page. */
  datatype ActionDef = ActionDef(id: string, name: string, confirmRoute: Option<string>)

  /** The message reported for a checked job that is not in the failure state. */
  datatype BulkError = AlreadyInState(serial: int, state: JobState)

  /** What follows an applied action: a redirect to its confirmation page, or a
      status message naming the action and the number of jobs. */
  datatype FollowUp = ConfirmRedirect(route: string) | AppliedMessage(actionLabel: string, count: nat)

  datatype Outcome =
    | NotSubmitted
      /** A checked job no longer exists; reading its state fails. */
    | Aborted(jobId: JobId)
      /** No checked job has failed: nothing is executed. */
    | NothingApplied(errors: seq<BulkError>)
      /** The action is executed once on `entities` (job id to job id). */
    | Applied(actionId: string, entities: map<JobId, JobId>, count: nat, errors: seq<BulkError>, followUp: FollowUp)

  /** The checked values of the user input, in order; an unchecked box has the
      empty value 0. */
  function Checked(checkboxes: seq<int>): (r: seq<JobId>)
    ensures forall k :: k in r <==> k in checkboxes && k != 0
  {
    Seqs.Select(checkboxes, k => k != 0)
  }

  predicate Failed(jobs: map<JobId, Job>, k: JobId) {
    k in jobs && jobs[k].state == Failure
  }

  /** The checked jobs the action is applied to, in order, repetitions included. */
  function FailedIn(jobs: map<JobId, Job>, s: seq<JobId>): (r: seq<JobId>)
    ensures forall k :: k in r <==> k in s && Failed(jobs, k)
  {
    Seqs.Select(s, k => Failed(jobs, k))
  }

  /** A checked job the action skips: it exists but is not in the failure state. */
  predicate Refused(jobs: map<JobId, Job>, k: JobId) {
    k in jobs && jobs[k].state != Failure
  }

  /** The checked jobs the action skips, in order. */
  function RefusedIn(jobs: map<JobId, Job>, s: seq<JobId>): (r: seq<JobId>)
    ensures forall k :: k in r <==> k in s && Refused(jobs, k)
  {
    Seqs.Select(s, k => Refused(jobs, k))
  }

  /** One error for each checked job that exists and has not failed, in order:
      the i-th error names the i-th skipped job's serial and state. */
  function Errors(jobs: map<JobId, Job>, subs: map<SubmissionId, Submission>, s: seq<JobId>): (r: seq<BulkError>)
    ensures var refused := RefusedIn(jobs, s);
      |r| == |refused| &&
      forall i :: 0 <= i < |r| ==>
        (Refused(jobs, refused[i]) &&
         r[i] == AlreadyInState(SerialFromJob(jobs, subs, refused[i]), jobs[refused[i]].state))
  {
    if s == [] then []
    else
      var k := s[|s| - 1];
      Errors(jobs, subs, s[..|s| - 1]) +
      (if k in jobs && jobs[k].state != Failure then [AlreadyInState(SerialFromJob(jobs, subs, k), jobs[k].state)] else [])
  }

  /** The first checked job that does not exist. */
  function FirstMissing(jobs: map<JobId, Job>, s: seq<JobId>): (r: Option<JobId>)
    ensures r.None? <==> forall i :: 0 <= i < |s| ==> s[i] in jobs
    ensures r.Some? ==> r.value in s && r.value !in jobs
    ensures r.Some? ==> forall i :: 0 <= i < Seqs.FirstIndex(s, r.value) ==> s[i] in jobs
  {
    if s == [] then None
    else if s[0] !in jobs then Some(s[0])
    else
      var r := FirstMissing(jobs, s[1..]);
      if r.Some? then
        assert forall i :: 0 < i < |s| ==> s[i] == s[1..][i - 1];
        r
      else r
  }

  function EntitySet(ids: seq<JobId>): (m: map<JobId, JobId>)
    ensures forall k :: k in m <==> k in ids
    ensures forall k :: k in m ==> m[k] == k
  {
    map k | k in ids :: k
  }

  function FollowUpOf(action: ActionDef, count: nat): FollowUp {
    match action.confirmRoute
    case Some(route) => ConfirmRedirect(route)
    case None => AppliedMessage(action.name, count)
  }

  /** What submitting the bulk form with `checkboxes` does. */
  function Submit(step: string, checkboxes: seq<int>, jobs: map<JobId, Job>,
                  subs: map<SubmissionId, Submission>, action: ActionDef): Outcome {
    var sel := Checked(checkboxes);
    if step != ViewsFormStep then NotSubmitted
    else if FirstMissing(jobs, sel).Some? then Aborted(FirstMissing(jobs, sel).value)
    else
      var failed := FailedIn(jobs, sel);
      if |failed| == 0 then NothingApplied(Errors(jobs, subs, sel))
      else Applied(action.id, EntitySet(failed), |failed|, Errors(jobs, subs, sel), FollowUpOf(action, |failed|))
  }

  /** Submits the bulk form: walks the checked jobs and executes the action
      once on the failed ones, if there are any. */
  method ViewsFormSubmit(step: string, checkboxes: seq<int>, jobs: map<JobId, Job>,
                         subs: map<SubmissionId, Submission>, action: ActionDef) returns (outcome: Outcome)
    ensures outcome == Submit(step, checkboxes, jobs, subs, action)
  {
    if step != ViewsFormStep {
      return NotSubmitted;
    }
    var sel := Checked(checkboxes);
    var missing, entities, count, errors := Walk(jobs, subs, sel);
    if missing.Some? {
      return Aborted(missing.value);
    }
    if count == 0 {
      return NothingApplied(errors);
    }
    outcome := Applied(action.id, entities, count, errors, FollowUpOf(action, count));
  }

  /** Walks the checked jobs once, collecting the failed ones and an error for
      every other one, and stops at the first job that does not exist. */
  method Walk(jobs: map<JobId, Job>, subs: map<SubmissionId, Submission>, sel: seq<JobId>)
    returns (missing: Option<JobId>, entities: map<JobId, JobId>, count: nat, errors: seq<BulkError>)
    ensures missing == FirstMissing(jobs, sel)
    ensures missing.None? ==>
      entities == EntitySet(FailedIn(jobs, sel)) && count == |FailedIn(jobs, sel)| &&
      errors == Errors(jobs, subs, sel)
  {
    entities, count, errors := map[], 0, [];
    ghost var failed: seq<JobId> := [];
    var i := 0;
    while i < |sel|
      invariant 0 <= i <= |sel|
      invariant FirstMissing(jobs, sel) == FirstMissing(jobs, sel[i..])
      invariant failed == FailedIn(jobs, sel[..i])
      invariant entities == EntitySet(failed) && count == |failed|
      invariant errors == Errors(jobs, subs, sel[..i])
    {
      var k := sel[i];
      WalkStep(jobs, subs, sel, i);
      if k !in jobs {
        return Some(k), entities, count, errors;
      }
      if !Failed(jobs, k) {
        errors := errors + [AlreadyInState(SerialFromJob(jobs, subs, k), jobs[k].state)];
      } else {
        EntitySetAppend(failed, k);
        count := count + 1;
        entities := entities[k := k];
        failed := failed + [k];
      }
      i := i + 1;
    }
    assert sel[..i] == sel;
    assert sel[i..] == [];
    missing := None;
  }

  lemma EntitySetAppend(s: seq<JobId>, k: JobId)
    ensures EntitySet(s + [k]) == EntitySet(s)[k := k]
  {
  }

  /** How the collected values change when the walk takes one more job. */
  lemma WalkStep(jobs: map<JobId, Job>, subs: map<SubmissionId, Submission>, s: seq<JobId>, i: nat)
    requires i < |s|
    ensures s[i] !in jobs ==> FirstMissing(jobs, s[i..]) == Some(s[i])
    ensures s[i] in jobs ==> FirstMissing(jobs, s[i..]) == FirstMissing(jobs, s[i + 1..])
    ensures FailedIn(jobs, s[..i + 1]) == FailedIn(jobs, s[..i]) + (if Failed(jobs, s[i]) then [s[i]] else [])
    ensures Errors(jobs, subs, s[..i + 1]) == Errors(jobs, subs, s[..i]) +
      (if s[i] in jobs && jobs[s[i]].state != Failure then [AlreadyInState(SerialFromJob(jobs, subs, s[i]), jobs[s[i]].state)] else [])
  {
    assert s[..i + 1][..i] == s[..i];
    assert s[i..][1..] == s[i + 1..];
  }

  /** The number of checked jobs that are in `jobs`. */
  function Present(jobs: map<JobId, Job>, s: seq<JobId>): (r: seq<JobId>)
    ensures forall k :: k in r <==> k in s && k in jobs
  {
    Seqs.Select(s, k => k in jobs)
  }

  /** Every existing checked job is counted exactly once: either it has failed
      and enters the action set, or it produces one error. */
  lemma {:induction false} Partition(jobs: map<JobId, Job>, subs: map<SubmissionId, Submission>, s: seq<JobId>)
    ensures |FailedIn(jobs, s)| + |Errors(jobs, subs, s)| == |Present(jobs, s)|
  {
    if s != [] {
      Partition(jobs, subs, s[..|s| - 1]);
    }
  }

  /** The set of distinct elements of a list without repetitions has as many
      elements as the list. */
  lemma {:induction false} DistinctCount(s: seq<JobId>)
    requires Seqs.Distinct(s)
    ensures |EntitySet(s).Keys| == |s|
  {
    if s != [] {
      var init, last := s[..|s| - 1], s[|s| - 1];
      assert s == init + [last];
      DistinctCount(init);
      assert last !in init;
      assert EntitySet(s).Keys == EntitySet(init).Keys + {last};
    }
  }

  /** An applied action reports exactly the failed checked jobs, an error for
      every other one, and, when no job is checked twice, a count equal to the
      size of the action set. */
  lemma AppliedOutcome(step: string, checkboxes: seq<int>, jobs: map<JobId, Job>,
                       subs: map<SubmissionId, Submission>, action: ActionDef)
    requires Submit(step, checkboxes, jobs, subs, action).Applied?
    ensures var o := Submit(step, checkboxes, jobs, subs, action);
      (forall k :: k in o.entities <==> k in checkboxes && k != 0 && Failed(jobs, k)) &&
      o.count + |o.errors| == |Checked(checkboxes)| && o.count > 0 && o.actionId == action.id &&
      (action.confirmRoute.None? ==> o.followUp == AppliedMessage(action.name, o.count)) &&
      (action.confirmRoute.Some? ==> o.followUp == ConfirmRedirect(action.confirmRoute.value)) &&
      (Seqs.Distinct(checkboxes) ==> o.count == |o.entities.Keys|)
  {
    var sel := Checked(checkboxes);
    Partition(jobs, subs, sel);
    Seqs.SelectAll(sel, k => k in jobs);
    if Seqs.Distinct(checkboxes) {
      Seqs.SelectDistinct(checkboxes, k => k != 0);
      Seqs.SelectDistinct(sel, k => Failed(jobs, k));
      DistinctCount(FailedIn(jobs, sel));
    }
  }

  /** With no failed job among the checked ones nothing is executed, and every
      checked job is reported. */
  lemma NothingAppliedOutcome(step: string, checkboxes: seq<int>, jobs: map<JobId, Job>,
                              subs: map<SubmissionId, Submission>, action: ActionDef)
    requires step == ViewsFormStep
    requires forall k :: k in checkboxes && k != 0 ==> k in jobs && jobs[k].state != Failure
    ensures Submit(step, checkboxes, jobs, subs, action) == NothingApplied(Errors(jobs, subs, Checked(checkboxes)))
    ensures |Errors(jobs, subs, Checked(checkboxes))| == |Checked(checkboxes)|
  {
    var sel := Checked(checkboxes);
    Partition(jobs, subs, sel);
    Seqs.SelectAll(sel, k => k in jobs);
    Seqs.SelectNone(sel, k => Failed(jobs, k));
  }
}

/** The confirmation page of a bulk action and its batch callbacks. */
module BulkConfirmForm {
  import opened Entities
  import opened FailedJobsHelper
  import RetryAction
  import HandleManuallyAction
  import Seqs

  /** The selection stored for a user: the action and the job ids. */
  datatype Selection = Selection(actionId: string, actionLabel: string, jobIds: seq<JobId>)

  datatype Description = NoSelections | AboutToPerform(actionLabel: string, count: nat)

  /** One batch operation: the action to run on one job. */
  datatype Operation = Operation(jobId: JobId, actionId: string)

  datatype Batch = Batch(actionLabel: string, operations: seq<Operation>)

  /** What the finish callback reports. */
  datatype Report =
    | ProcessedCount(count: nat)
    | ProcessingError
      /** A successful batch that processed nothing has no list of processed ids to count. */
    | NoProcessedList

  /** The private store of pending selections, keyed by user id. */
  class TempStore {
    var selections: map<int, Selection>

    constructor(selections0: map<int, Selection>)
      ensures selections == selections0
    {
      selections := selections0;
    }
  }

  function DescriptionOf(selection: Option<Selection>): (d: Description)
    ensures selection.None? <==> d == NoSelections
    ensures selection.Some? ==> d == AboutToPerform(selection.value.actionLabel, |selection.value.jobIds|)
  {
    match selection
    case None => NoSelections
    case Some(s) => AboutToPerform(s.actionLabel, |s.jobIds|)
  }

  /** The batch operations for a selection: one per non-empty job id, in order. */
  method BuildOperations(selection: Selection) returns (ops: seq<Operation>)
    ensures |ops| == |Seqs.Select(selection.jobIds, k => k != 0)|
    ensures forall i :: 0 <= i < |ops| ==>
      ops[i] == Operation(Seqs.Select(selection.jobIds, k => k != 0)[i], selection.actionId)
  {
    ops := [];
    var i := 0;
    while i < |selection.jobIds|
      invariant 0 <= i <= |selection.jobIds|
      invariant |ops| == |Seqs.Select(selection.jobIds[..i], k => k != 0)|
      invariant forall j :: 0 <= j < |ops| ==>
        ops[j] == Operation(Seqs.Select(selection.jobIds[..i], k => k != 0)[j], selection.actionId)
    {
      var id := selection.jobIds[i];
      assert selection.jobIds[..i + 1][..i] == selection.jobIds[..i];
      if id != 0 {
        ops := ops + [Operation(id, selection.actionId)];
      }
      i := i + 1;
    }
    assert selection.jobIds[..i] == selection.jobIds;
  }

  /** Schedules the batch for the current user's selection and deletes the
      selection; without a stored selection the page cannot be submitted. */
  method SubmitForm(store: TempStore, uid: int) returns (batch: Option<Batch>)
    modifies store
    ensures uid !in old(store.selections) ==> batch == None && store.selections == old(store.selections)
    ensures uid in old(store.selections) ==>
      var s := old(store.selections)[uid];
      batch.Some? && batch.value.actionLabel == s.actionLabel &&
      |batch.value.operations| == |Seqs.Select(s.jobIds, k => k != 0)| &&
      (forall i :: 0 <= i < |batch.value.operations| ==>
        batch.value.operations[i] == Operation(Seqs.Select(s.jobIds, k => k != 0)[i], s.actionId)) &&
      store.selections == old(store.selections) - {uid}
  {
    if uid !in store.selections {
      return None;
    }
    var selection := store.selections[uid];
    var ops := BuildOperations(selection);
    batch := Some(Batch(selection.actionLabel, ops));
    store.selections := store.selections - {uid};
  }

  /** Runs one batch operation: the named action on a non-empty job id, which is
      then added to the processed ids. An unknown action id fails the batch. */
  method BatchProcess(h: Helper, jobId: JobId, actionId: string, processed: Option<seq<JobId>>, now: int)
    returns (result: Result)
    requires h.Valid()
    modifies h
    ensures h.Valid()
    ensures jobId == 0 ==> result == Continue(processed)
    ensures jobId != 0 && (actionId == RetryAction.Id || actionId == HandleManuallyAction.Id) ==>
      result == Continue(Some((if processed.Some? then processed.value else []) + [jobId]))
    ensures jobId != 0 && actionId == RetryAction.Id ==>
      h.jobs == old(h.jobs) && h.log == old(h.log) &&
      h.hooks == old(h.hooks) +
        (if RetryAction.Applies(old(h.jobs), h.queues, jobId) then [HookCall(Retry, jobId, old(h.jobs)[jobId])] else [])
    ensures jobId != 0 && actionId == HandleManuallyAction.Id && HandleManuallyAction.Applies(old(h.jobs), h.queues, jobId) ==>
      var done := old(h.jobs)[jobId].(state := Success);
      h.jobs == old(h.jobs)[jobId := done] &&
      h.hooks == old(h.hooks) + [HookCall(OnSuccess, jobId, done), HookCall(OnSuccess, jobId, done)] &&
      h.log == old(h.log) + [ManualLogEntry(h.relations, old(h.jobs), jobId, h.currentUser, now)]
    ensures jobId != 0 && actionId == HandleManuallyAction.Id && !HandleManuallyAction.Applies(old(h.jobs), h.queues, jobId) ==>
      h.jobs == old(h.jobs) && h.hooks == old(h.hooks) && h.log == old(h.log)
    ensures jobId != 0 && actionId != RetryAction.Id && actionId != HandleManuallyAction.Id ==>
      result == Failed && h.jobs == old(h.jobs) && h.hooks == old(h.hooks) && h.log == old(h.log)
    ensures jobId == 0 ==> h.jobs == old(h.jobs) && h.hooks == old(h.hooks) && h.log == old(h.log)
    ensures h.relations == old(h.relations) && h.submissions == old(h.submissions) && h.queues == old(h.queues)
    ensures h.currentUser == old(h.currentUser)
  {
    if jobId == 0 {
      return Continue(processed);
    }
    if actionId == RetryAction.Id {
      RetryAction.Execute(h, jobId);
    } else if actionId == HandleManuallyAction.Id {
      HandleManuallyAction.Execute(h, jobId, now);
    } else {
      return Failed;
    }
    var done := if processed.Some? then processed.value else [];
    result := Continue(Some(done + [jobId]));
  }

  /** The state of a batch after an operation: going on with the processed ids
      so far (none until the first id is added), or failed. */
  datatype Result = Continue(processed: Option<seq<JobId>>) | Failed

  function BatchFinished(success: bool, processed: Option<seq<JobId>>): (r: Report)
    ensures !success <==> r == ProcessingError
    ensures success && processed.Some? ==> r == ProcessedCount(|processed.value|)
    ensures success && processed.None? ==> r == NoProcessedList
  {
    if !success then ProcessingError
    else if processed.Some? then ProcessedCount(|processed.value|)
    else NoProcessedList
  }
}
