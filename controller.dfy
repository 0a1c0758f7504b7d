/** The pages listing failed jobs: the argument handed to the failed-jobs view
    of one form, the union of job ids over every form the user may update, and
    the message of a single job. */
module Controller {
  import opened Entities
  import opened Lookups
  import opened Text
  import Seqs

  /** The view argument on a form's page: its relation job ids, comma-separated. */
  function RenderArgument(relations: map<JobId, Relation>, formId: WebformId): (arg: string)
    ensures QueueJobIds(relations, formId) == [] ==> arg == ""
    ensures QueueJobIds(relations, formId) != [] ==>
      var parts := Split(arg, ',');
      |parts| == |QueueJobIds(relations, formId)| &&
      forall i :: 0 <= i < |parts| ==> ParseInt(parts[i]) == QueueJobIds(relations, formId)[i]
  {
    var ids := QueueJobIds(relations, formId);
    if ids == [] then IdList(ids)
    else
      IdListRoundTrip(ids);
      IdList(ids)
  }

  /** The relation job ids of every form in `webforms` the user may update, form
      after form, before duplicates are removed. */
  function UpdatableJobIds(webforms: seq<WebformId>, updatable: set<WebformId>,
                           relations: map<JobId, Relation>): seq<JobId>
  {
    if webforms == [] then []
    else
      var last := webforms[|webforms| - 1];
      UpdatableJobIds(webforms[..|webforms| - 1], updatable, relations) +
      (if last in updatable then QueueJobIds(relations, last) else [])
  }

  /** A job id is collected exactly when its relation names a listed form the
      user may update. */
  lemma {:induction false} UpdatableJobIdsMembers(webforms: seq<WebformId>, updatable: set<WebformId>,
                                                  relations: map<JobId, Relation>)
    ensures forall k :: k in UpdatableJobIds(webforms, updatable, relations) <==>
      k in relations && relations[k].webformId in webforms && relations[k].webformId in updatable
  {
    if webforms != [] {
      var init, last := webforms[..|webforms| - 1], webforms[|webforms| - 1];
      assert webforms == init + [last];
      UpdatableJobIdsMembers(init, updatable, relations);
      forall w ensures w in webforms <==> w in init || w == last {
      }
    }
  }

  /** Walks the forms, appending the relation job ids of each one the user may update. */
  method CollectUpdatable(webforms: seq<WebformId>, updatable: set<WebformId>, relations: map<JobId, Relation>)
    returns (collected: seq<JobId>)
    ensures collected == UpdatableJobIds(webforms, updatable, relations)
  {
    collected := [];
    var i := 0;
    while i < |webforms|
      invariant 0 <= i <= |webforms|
      invariant collected == UpdatableJobIds(webforms[..i], updatable, relations)
    {
      assert webforms[..i + 1][..i] == webforms[..i];
      if webforms[i] in updatable {
        collected := collected + QueueJobIds(relations, webforms[i]);
      }
      i := i + 1;
    }
    assert webforms[..i] == webforms;
  }

  /** The job ids of the personal error list: the relation job ids of every
      form the user may update, each once, at its first place. */
  method MyFormErrors(webforms: seq<WebformId>, updatable: set<WebformId>, relations: map<JobId, Relation>)
    returns (jobIds: seq<JobId>)
    ensures jobIds == Seqs.Unique(UpdatableJobIds(webforms, updatable, relations))
    ensures Seqs.Distinct(jobIds)
    ensures forall k :: k in jobIds <==>
      k in relations && relations[k].webformId in webforms && relations[k].webformId in updatable
  {
    var collected := CollectUpdatable(webforms, updatable, relations);
    Seqs.UniqueProperties(collected);
    UpdatableJobIdsMembers(webforms, updatable, relations);
    jobIds := Seqs.Unique(collected);
  }

  /** A form's relation job ids carry no repetitions, so when the user may update
      a single form the personal list is exactly that form's list. */
  lemma SingleFormErrors(formId: WebformId, relations: map<JobId, Relation>)
    ensures Seqs.Unique(UpdatableJobIds([formId], {formId}, relations)) == QueueJobIds(relations, formId)
  {
    var ids := QueueJobIds(relations, formId);
    assert [formId][..0] == [];
    assert UpdatableJobIds([formId], {formId}, relations) == [] + ids;
    assert [] + ids == ids;
    Seqs.UniqueOfDistinct(ids);
  }

  /** The view argument of the personal error list, from which the job ids can be read back. */
  function MyFormErrorsArgument(jobIds: seq<JobId>): (arg: string)
    ensures jobIds == [] ==> arg == ""
    ensures jobIds != [] ==>
      var parts := Split(arg, ',');
      |parts| == |jobIds| && forall i :: 0 <= i < |parts| ==> ParseInt(parts[i]) == jobIds[i]
  {
    if jobIds == [] then IdList(jobIds)
    else
      IdListRoundTrip(jobIds);
      IdList(jobIds)
  }

  datatype JobMessage = JobNotFoundMessage | StoredMessage(message: string)

  /** The message page of a job: its stored message, or "Job not found". */
  function JobMessageOf(jobs: map<JobId, Job>, id: JobId): (m: JobMessage)
    ensures m == JobNotFoundMessage <==> id !in jobs
    ensures id in jobs ==> m == StoredMessage(jobs[id].message)
  {
    if id in jobs then StoredMessage(jobs[id].message) else JobNotFoundMessage
  }
}
