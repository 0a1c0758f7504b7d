/** The read-only helpers of the failed-jobs helper service: where a job keeps its
    submission id, what a job's submission and relation say, and which job ids
    the relation table holds for a form, a submission or a serial number. */
module Lookups {
  import opened Entities
  import Seqs

  /** The submission id of a payload: the top-level `submissionId` when it is
      set, otherwise the nested `submission.id`, otherwise none. */
  function SubmissionIdOf(p: Payload): Option<int> {
    if p.submissionId.Some? then p.submissionId else p.nestedSubmissionId
  }

  /** A payload in the top-level legacy shape. */
  function TopLevelPayload(sid: int, nested: Option<int>): Payload {
    Payload(Some(sid), nested)
  }

  /** A payload in the nested legacy shape. */
  function NestedPayload(sid: int): Payload {
    Payload(None, Some(sid))
  }

  /** Both legacy shapes give back the id they were written with; the top-level
      key wins over the nested one, and a payload with neither key has no id. */
  lemma SubmissionIdShapes(sid: int, nested: Option<int>)
    ensures SubmissionIdOf(TopLevelPayload(sid, nested)) == Some(sid)
    ensures SubmissionIdOf(NestedPayload(sid)) == Some(sid)
    ensures SubmissionIdOf(Payload(None, None)) == None
  {
  }

  /** PHP's `empty()` on an optional id: absent or zero. */
  predicate EmptyId(id: Option<int>) {
    id.None? || id.value == 0
  }

  /** The submission id kept in a stored job's payload; none for a missing job. */
  function SubmissionIdFromJob(jobs: map<JobId, Job>, id: JobId): (r: Option<int>)
    ensures id !in jobs ==> r == None
    ensures id in jobs ==> r == SubmissionIdOf(jobs[id].payload)
  {
    if id in jobs then SubmissionIdOf(jobs[id].payload) else None
  }

  /** What a job's payload tells about its submission: no usable id, an id whose
      submission cannot be loaded, or the submission id with its form. */
  datatype JobData = NoSubmissionId | SubmissionMissing | Found(submissionId: SubmissionId, webformId: WebformId)

  function DataFromJob(subs: map<SubmissionId, Submission>, p: Payload): (d: JobData)
    ensures d.Found? <==> !EmptyId(SubmissionIdOf(p)) && SubmissionIdOf(p).value in subs
    ensures d.Found? ==>
      SubmissionIdOf(p) == Some(d.submissionId) && d.submissionId != 0 && d.webformId == subs[d.submissionId].webformId
    ensures d.NoSubmissionId? <==> EmptyId(SubmissionIdOf(p))
  {
    var sid := SubmissionIdOf(p);
    if EmptyId(sid) then NoSubmissionId
    else if sid.value !in subs then SubmissionMissing
    else Found(sid.value, subs[sid.value].webformId)
  }

  /** Whether a queue exists and runs on the Database backend. */
  predicate IsDatabase(queues: map<QueueId, Backend>, q: QueueId) {
    q in queues && queues[q] == DatabaseBackend
  }

  /** The form id the relation table records for a job. */
  function WebformIdFromQueue(relations: map<JobId, Relation>, id: JobId): (r: Option<WebformId>)
    ensures r.Some? <==> id in relations
    ensures r.Some? ==> r.value == relations[id].webformId
  {
    if id in relations then Some(relations[id].webformId) else None
  }

  /** The submission a job's payload names, when it can be loaded. */
  function LoadedSubmission(jobs: map<JobId, Job>, subs: map<SubmissionId, Submission>, id: JobId): (r: Option<Submission>)
    ensures r.Some? <==> !EmptyId(SubmissionIdFromJob(jobs, id)) && SubmissionIdFromJob(jobs, id).value in subs
    ensures r.Some? ==> r.value == subs[SubmissionIdFromJob(jobs, id).value]
  {
    var sid := SubmissionIdFromJob(jobs, id);
    if EmptyId(sid) || sid.value !in subs then None else Some(subs[sid.value])
  }

  /** The serial number of a job's submission, or 0 when there is none. */
  function SerialFromJob(jobs: map<JobId, Job>, subs: map<SubmissionId, Submission>, id: JobId): (r: int)
    ensures LoadedSubmission(jobs, subs, id).None? ==> r == 0
    ensures LoadedSubmission(jobs, subs, id).Some? ==> r == LoadedSubmission(jobs, subs, id).value.serial
  {
    var s := LoadedSubmission(jobs, subs, id);
    if s.Some? then s.value.serial else 0
  }

  /** The creation time of a job's submission, or 0 when there is none. */
  function CreatedFromJob(jobs: map<JobId, Job>, subs: map<SubmissionId, Submission>, id: JobId): (r: int)
    ensures LoadedSubmission(jobs, subs, id).None? ==> r == 0
    ensures LoadedSubmission(jobs, subs, id).Some? ==> r == LoadedSubmission(jobs, subs, id).value.created
  {
    var s := LoadedSubmission(jobs, subs, id);
    if s.Some? then s.value.created else 0
  }

  /** Whether a job's submission was created inside [min, max]. A job without a
      submission id is outside; a submission that cannot be loaded, or a range
      with an empty end, lets the job through. */
  function InCreatedRange(jobs: map<JobId, Job>, subs: map<SubmissionId, Submission>, id: JobId,
                          min: Option<int>, max: Option<int>): (r: bool)
  {
    var sid := SubmissionIdFromJob(jobs, id);
    if EmptyId(sid) then false
    else if sid.value in subs && min.Some? && max.Some? then
      min.value <= subs[sid.value].created <= max.value
    else true
  }

  /** The three outcomes of the created-range test, each with the condition that
      selects it. */
  lemma InCreatedRangeCases(jobs: map<JobId, Job>, subs: map<SubmissionId, Submission>, id: JobId,
                            min: Option<int>, max: Option<int>)
    ensures EmptyId(SubmissionIdFromJob(jobs, id)) ==> !InCreatedRange(jobs, subs, id, min, max)
    ensures !EmptyId(SubmissionIdFromJob(jobs, id)) && (LoadedSubmission(jobs, subs, id).None? || min.None? || max.None?)
      ==> InCreatedRange(jobs, subs, id, min, max)
    ensures LoadedSubmission(jobs, subs, id).Some? && min.Some? && max.Some? ==>
      (InCreatedRange(jobs, subs, id, min, max) <==> min.value <= CreatedFromJob(jobs, subs, id) <= max.value)
  {
  }

  /** The job ids of the relation table, in row order. */
  function RelationJobIds(relations: map<JobId, Relation>): (r: seq<JobId>)
    ensures Seqs.Distinct(r)
    ensures forall k :: k in r <==> k in relations
  {
    var r := Seqs.Ascending(relations.Keys);
    Seqs.IncreasingIsDistinct(r);
    r
  }

  /** The job ids related to a form. */
  function QueueJobIds(relations: map<JobId, Relation>, formId: WebformId): (r: seq<JobId>)
    ensures Seqs.Distinct(r)
    ensures forall k :: k in r <==> k in relations && relations[k].webformId == formId
  {
    var all := RelationJobIds(relations);
    Seqs.SelectDistinct(all, k => k in relations && relations[k].webformId == formId);
    Seqs.Select(all, k => k in relations && relations[k].webformId == formId)
  }

  /** The job ids related to a submission id. */
  function QueueJobIdsFromSubmissionId(relations: map<JobId, Relation>, sid: SubmissionId): (r: seq<JobId>)
    ensures Seqs.Distinct(r)
    ensures forall k :: k in r <==> k in relations && relations[k].submissionId == sid
  {
    var all := RelationJobIds(relations);
    Seqs.SelectDistinct(all, k => k in relations && relations[k].submissionId == sid);
    Seqs.Select(all, k => k in relations && relations[k].submissionId == sid)
  }

  /** The first submission (in row order) with the given serial number in the given form. */
  function SubmissionWithSerial(subs: map<SubmissionId, Submission>, serial: int, formId: WebformId): (r: Option<SubmissionId>)
    ensures r.Some? ==> r.value in subs && subs[r.value].serial == serial && subs[r.value].webformId == formId
    ensures r.None? ==> forall sid :: sid in subs ==> !(subs[sid].serial == serial && subs[sid].webformId == formId)
  {
    var matching := Seqs.Select(Seqs.Ascending(subs.Keys),
      sid => sid in subs && subs[sid].serial == serial && subs[sid].webformId == formId);
    if matching == [] then None else Some(matching[0])
  }

  /** The job ids related to the submission with a given serial number in a form;
      none when no such submission exists. */
  function QueueJobIdsFromSerial(relations: map<JobId, Relation>, subs: map<SubmissionId, Submission>,
                                 serial: int, formId: WebformId): (r: seq<JobId>)
    ensures Seqs.Distinct(r)
    ensures SubmissionWithSerial(subs, serial, formId).None? ==> r == []
    ensures SubmissionWithSerial(subs, serial, formId).Some? ==> forall k :: k in r <==>
      (k in relations && relations[k].submissionId == SubmissionWithSerial(subs, serial, formId).value)
  {
    match SubmissionWithSerial(subs, serial, formId)
    case Some(sid) => QueueJobIdsFromSubmissionId(relations, sid)
    case None => []
  }

  /** Whether a relation's submission id is in the scope of a cleanup: every
      relation when no (or an empty) submission id is given. */
  predicate InScope(sid: SubmissionId, scope: Option<SubmissionId>) {
    EmptyId(scope) || sid == scope.value
  }

  /** No relation has the empty job id 0, which is what makes `[0]` match nothing. */
  predicate WellFormedIds(relations: map<JobId, Relation>) {
    0 !in relations
  }

  /** The rows of the relation table for the given job ids, in that order. */
  function RowsOf(relations: map<JobId, Relation>, ids: seq<JobId>): (rows: seq<RelationRow>)
    requires forall i :: 0 <= i < |ids| ==> ids[i] in relations
    ensures |rows| == |ids|
    ensures forall i :: 0 <= i < |ids| ==> rows[i] == RelationRow(ids[i], relations[ids[i]].submissionId)
  {
    seq(|ids|, i requires 0 <= i < |ids| => RelationRow(ids[i], relations[ids[i]].submissionId))
  }

  /** A row is listed exactly for each given job id, with that job's submission id. */
  lemma RowsOfMembers(relations: map<JobId, Relation>, ids: seq<JobId>)
    requires forall i :: 0 <= i < |ids| ==> ids[i] in relations
    ensures forall r :: r in RowsOf(relations, ids) ==>
      r.jobId in ids && r.jobId in relations && r.submissionId == relations[r.jobId].submissionId
    ensures forall k :: k in ids ==> RowsOf(relations, ids)[Seqs.FirstIndex(ids, k)] == RelationRow(k, relations[k].submissionId)
  {
    var rows := RowsOf(relations, ids);
    forall r | r in rows
      ensures r.jobId in ids && r.jobId in relations && r.submissionId == relations[r.jobId].submissionId
    {
      var i :| 0 <= i < |rows| && rows[i] == r;
      assert r.jobId == ids[i];
    }
  }

  function InScopeTest(relations: map<JobId, Relation>, scope: Option<SubmissionId>): int -> bool {
    k => k in relations && InScope(relations[k].submissionId, scope)
  }

  /** The rows the pruning sweep scans: every relation in scope, whether or not
      its submission still exists. */
  function DetachedRelations(relations: map<JobId, Relation>, scope: Option<SubmissionId>): (rows: seq<RelationRow>)
    ensures forall r :: r in rows ==>
      (r.jobId in relations && r.submissionId == relations[r.jobId].submissionId && InScope(r.submissionId, scope))
    ensures forall k :: k in relations && InScope(relations[k].submissionId, scope) ==>
      RelationRow(k, relations[k].submissionId) in rows
  {
    var ids := Seqs.Select(RelationJobIds(relations), InScopeTest(relations, scope));
    RowsOfMembers(relations, ids);
    var rows := RowsOf(relations, ids);
    assert forall k :: k in relations && InScope(relations[k].submissionId, scope) ==>
      rows[Seqs.FirstIndex(ids, k)] == RelationRow(k, relations[k].submissionId);
    rows
  }
}
