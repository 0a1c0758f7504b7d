/** The filters of the failed-jobs views. Each computes a list of job ids and
    restricts the view's query to jobs whose id is in that list; as an `IN`
    condition needs a non-empty list, an empty result is replaced by `[0]`,
    which matches no job. */
module ViewsFilters {
  import opened Entities
  import opened Lookups
  import Seqs

  /** The `IN` conditions on the job id that filters have added to a view query, in order. */
  class ViewQuery {
    var conditions: seq<seq<JobId>>

    constructor()
      ensures conditions == []
    {
      conditions := [];
    }

    method AddWhere(ids: seq<JobId>)
      modifies this
      ensures conditions == old(conditions) + [ids]
    {
      conditions := conditions + [ids];
    }
  }

  /** A list fit for an `IN` condition: the list itself, or `[0]` when it is empty. */
  function OrMatchNothing(ids: seq<JobId>): (r: seq<JobId>)
    ensures r != []
    ensures ids != [] ==> r == ids
    ensures ids == [] ==> r == [0]
  {
    if ids == [] then [0] else ids
  }

  // Created-range filter.

  function CreatedTest(jobs: map<JobId, Job>, subs: map<SubmissionId, Submission>,
                       min: Option<int>, max: Option<int>): int -> bool {
    k => InCreatedRange(jobs, subs, k, min, max)
  }

  /** The relation job ids whose submission passes the created-range test, in row order. */
  function CreatedMatches(jobs: map<JobId, Job>, subs: map<SubmissionId, Submission>, relations: map<JobId, Relation>,
                          min: Option<int>, max: Option<int>): (r: seq<JobId>)
    ensures forall k :: k in r <==> k in relations && InCreatedRange(jobs, subs, k, min, max)
  {
    Seqs.Select(RelationJobIds(relations), CreatedTest(jobs, subs, min, max))
  }

  /** The relation job ids in the created range, or `[0]` when there are none. */
  method CreatedJobIds(jobs: map<JobId, Job>, subs: map<SubmissionId, Submission>, relations: map<JobId, Relation>,
                       min: Option<int>, max: Option<int>) returns (ids: seq<JobId>)
    ensures ids == OrMatchNothing(CreatedMatches(jobs, subs, relations, min, max))
  {
    var kept := KeepInCreatedRange(jobs, subs, RelationJobIds(relations), min, max);
    ids := if kept == [] then [0] else kept;
  }

  /** Walks the candidate job ids, keeping those in the created range, in order. */
  method KeepInCreatedRange(jobs: map<JobId, Job>, subs: map<SubmissionId, Submission>, candidates: seq<JobId>,
                            min: Option<int>, max: Option<int>) returns (kept: seq<JobId>)
    ensures kept == Seqs.Select(candidates, CreatedTest(jobs, subs, min, max))
  {
    kept := [];
    var i := 0;
    while i < |candidates|
      invariant 0 <= i <= |candidates|
      invariant kept == Seqs.Select(candidates[..i], CreatedTest(jobs, subs, min, max))
    {
      Seqs.SelectStep(candidates, i, CreatedTest(jobs, subs, min, max));
      if InCreatedRange(jobs, subs, candidates[i], min, max) {
        kept := kept + [candidates[i]];
      }
      i := i + 1;
    }
    assert candidates[..i] == candidates;
  }

  method CreatedQuery(q: ViewQuery, jobs: map<JobId, Job>, subs: map<SubmissionId, Submission>,
                      relations: map<JobId, Relation>, min: Option<int>, max: Option<int>)
    modifies q
    ensures q.conditions == old(q.conditions) + [OrMatchNothing(CreatedMatches(jobs, subs, relations, min, max))]
  {
    var ids := CreatedJobIds(jobs, subs, relations, min, max);
    q.AddWhere(ids);
  }

  // Submission-exists filter.

  function ExistsTest(jobs: map<JobId, Job>, subs: map<SubmissionId, Submission>): int -> bool {
    k => SerialFromJob(jobs, subs, k) > 0
  }

  /** A form's relation job ids whose submission still has a positive serial number. */
  function ExistingMatches(jobs: map<JobId, Job>, subs: map<SubmissionId, Submission>, relations: map<JobId, Relation>,
                           formId: WebformId): (r: seq<JobId>)
    ensures forall k :: k in r <==>
      k in relations && relations[k].webformId == formId && SerialFromJob(jobs, subs, k) > 0
  {
    Seqs.Select(QueueJobIds(relations, formId), ExistsTest(jobs, subs))
  }

  /** A form's relation job ids whose submission still exists, or `[0]` when there are none. */
  method ExistingJobIds(jobs: map<JobId, Job>, subs: map<SubmissionId, Submission>, relations: map<JobId, Relation>,
                        formId: WebformId) returns (ids: seq<JobId>)
    ensures ids == OrMatchNothing(ExistingMatches(jobs, subs, relations, formId))
  {
    var kept := KeepExisting(jobs, subs, QueueJobIds(relations, formId));
    ids := if kept == [] then [0] else kept;
  }

  /** Walks the candidate job ids, keeping those with a positive serial number, in order. */
  method KeepExisting(jobs: map<JobId, Job>, subs: map<SubmissionId, Submission>, candidates: seq<JobId>)
    returns (kept: seq<JobId>)
    ensures kept == Seqs.Select(candidates, ExistsTest(jobs, subs))
  {
    kept := [];
    var i := 0;
    while i < |candidates|
      invariant 0 <= i <= |candidates|
      invariant kept == Seqs.Select(candidates[..i], ExistsTest(jobs, subs))
    {
      Seqs.SelectStep(candidates, i, ExistsTest(jobs, subs));
      if SerialFromJob(jobs, subs, candidates[i]) > 0 {
        kept := kept + [candidates[i]];
      }
      i := i + 1;
    }
    assert candidates[..i] == candidates;
  }

  /** Without a form in the route nothing is added. */
  method ExistsQuery(q: ViewQuery, jobs: map<JobId, Job>, subs: map<SubmissionId, Submission>,
                     relations: map<JobId, Relation>, webform: Option<WebformId>)
    modifies q
    ensures webform.None? ==> q.conditions == old(q.conditions)
    ensures webform.Some? ==>
      q.conditions == old(q.conditions) + [OrMatchNothing(ExistingMatches(jobs, subs, relations, webform.value))]
  {
    if webform.Some? {
      var ids := ExistingJobIds(jobs, subs, relations, webform.value);
      q.AddWhere(ids);
    }
  }

  // Serial filter.

  method SerialQuery(q: ViewQuery, subs: map<SubmissionId, Submission>, relations: map<JobId, Relation>,
                     serial: int, webform: Option<WebformId>)
    modifies q
    ensures webform.None? ==> q.conditions == old(q.conditions)
    ensures webform.Some? ==>
      q.conditions == old(q.conditions) + [OrMatchNothing(QueueJobIdsFromSerial(relations, subs, serial, webform.value))]
  {
    if webform.Some? {
      q.AddWhere(OrMatchNothing(QueueJobIdsFromSerial(relations, subs, serial, webform.value)));
    }
  }

  /** The condition the serial filter adds: the jobs of the submission with that
      serial number in the form, or none at all. */
  lemma SerialCondition(subs: map<SubmissionId, Submission>, relations: map<JobId, Relation>, serial: int, formId: WebformId)
    requires WellFormedIds(relations)
    ensures var c := OrMatchNothing(QueueJobIdsFromSerial(relations, subs, serial, formId));
      c != [] &&
      (c == [0] ==> forall k :: k in relations ==> !MatchesSerial(relations, subs, k, serial, formId)) &&
      (c != [0] ==> forall k :: k in c <==> k in relations && MatchesSerial(relations, subs, k, serial, formId))
  {
  }

  /** Whether job `k`'s relation points at the first submission with the given
      serial number in the form. */
  predicate MatchesSerial(relations: map<JobId, Relation>, subs: map<SubmissionId, Submission>, k: JobId,
                          serial: int, formId: WebformId)
    requires k in relations
  {
    SubmissionWithSerial(subs, serial, formId).Some? &&
    relations[k].submissionId == SubmissionWithSerial(subs, serial, formId).value
  }

  // Submission-id filter.

  /** The condition the submission-id filter adds: `[0]` when the submission has
      no related job, and none otherwise, which leaves the view unfiltered. */
  function IdCondition(relations: map<JobId, Relation>, sid: SubmissionId): (c: Option<seq<JobId>>)
    ensures c.Some? <==> forall k :: k in relations ==> relations[k].submissionId != sid
    ensures c.Some? ==> c.value == [0]
  {
    var ids := QueueJobIdsFromSubmissionId(relations, sid);
    if ids == [] then Some([0])
    else
      assert ids[0] in ids;
      None
  }

  method IdQuery(q: ViewQuery, relations: map<JobId, Relation>, sid: SubmissionId)
    modifies q
    ensures IdCondition(relations, sid).None? ==> q.conditions == old(q.conditions)
    ensures IdCondition(relations, sid).Some? ==> q.conditions == old(q.conditions) + [[0]]
  {
    var ids := QueueJobIdsFromSubmissionId(relations, sid);
    if ids == [] {
      q.AddWhere([0]);
    }
  }

  // Webform-label filter.

  /** A form as the label filter sees it: its id and its title. */
  datatype WebformInfo = WebformInfo(id: WebformId, title: string)

  /** Whether `sub` occurs in `s` at position `i`. */
  predicate OccursAt(s: string, sub: string, i: int) {
    0 <= i <= |s| - |sub| && s[i..i + |sub|] == sub
  }

  /** Whether `sub` occurs in `s`. */
  predicate Contains(s: string, sub: string) {
    exists i | 0 <= i <= |s| - |sub| :: OccursAt(s, sub, i)
  }

  /** The ids of the forms whose title contains the input, in order. */
  function MatchingWebforms(webforms: seq<WebformInfo>, input: string): (r: seq<WebformId>)
    ensures forall w :: w in r <==> exists f :: f in webforms && f.id == w && Contains(f.title, input)
  {
    if webforms == [] then []
    else
      var init, last := webforms[..|webforms| - 1], webforms[|webforms| - 1];
      assert webforms == init + [last];
      MatchingWebforms(init, input) + (if Contains(last.title, input) then [last.id] else [])
  }

  /** The relation job ids of the forms `forms`, form after form, repetitions kept. */
  function FormsJobIds(relations: map<JobId, Relation>, forms: seq<WebformId>): seq<JobId> {
    if forms == [] then []
    else FormsJobIds(relations, forms[..|forms| - 1]) + QueueJobIds(relations, forms[|forms| - 1])
  }

  /** A job id is listed exactly when its relation names one of the forms. */
  lemma {:induction false} FormsJobIdsMembers(relations: map<JobId, Relation>, forms: seq<WebformId>)
    ensures forall k :: k in FormsJobIds(relations, forms) <==> k in relations && relations[k].webformId in forms
  {
    if forms != [] {
      var init, last := forms[..|forms| - 1], forms[|forms| - 1];
      assert forms == init + [last];
      FormsJobIdsMembers(relations, init);
      forall w ensures w in forms <==> w in init || w == last {
      }
    }
  }

  /** The lists of two runs of forms are concatenated as they are: nothing is
      removed when a job id would appear twice. */
  lemma {:induction false} FormsJobIdsAppend(relations: map<JobId, Relation>, a: seq<WebformId>, b: seq<WebformId>)
    ensures FormsJobIds(relations, a + b) == FormsJobIds(relations, a) + FormsJobIds(relations, b)
    decreases |b|
  {
    if b == [] {
      assert a + b == a;
    } else {
      var init, last := b[..|b| - 1], b[|b| - 1];
      assert b == init + [last];
      assert a + b == (a + init) + [last];
      FormsJobIdsAppend(relations, a, init);
      FormsJobIdsSnoc(relations, init, last);
      FormsJobIdsSnoc(relations, a + init, last);
      Seqs.AppendAssociative(FormsJobIds(relations, a), FormsJobIds(relations, init), QueueJobIds(relations, last));
    }
  }

  /** One more form appends its relation job ids. */
  lemma FormsJobIdsSnoc(relations: map<JobId, Relation>, forms: seq<WebformId>, w: WebformId)
    ensures FormsJobIds(relations, forms + [w]) == FormsJobIds(relations, forms) + QueueJobIds(relations, w)
  {
    assert (forms + [w])[..|forms|] == forms;
  }

  /** The label filter's list for the forms whose title contains the input. */
  method LabelJobIds(webforms: seq<WebformInfo>, input: string, relations: map<JobId, Relation>)
    returns (ids: seq<JobId>)
    ensures ids == [0] + FormsJobIds(relations, MatchingWebforms(webforms, input))
  {
    ids := AppendFormsJobIds(relations, MatchingWebforms(webforms, input));
  }

  /** Starts from `[0]` and appends the relation job ids of every form, form after form. */
  method AppendFormsJobIds(relations: map<JobId, Relation>, forms: seq<WebformId>) returns (ids: seq<JobId>)
    ensures ids == [0] + FormsJobIds(relations, forms)
  {
    ids := [0];
    var i := 0;
    while i < |forms|
      invariant 0 <= i <= |forms|
      invariant ids == [0] + FormsJobIds(relations, forms[..i])
    {
      assert forms[..i + 1][..i] == forms[..i];
      Seqs.AppendAssociative([0], FormsJobIds(relations, forms[..i]), QueueJobIds(relations, forms[i]));
      ids := ids + QueueJobIds(relations, forms[i]);
      i := i + 1;
    }
    assert forms[..i] == forms;
  }

  /** The label filter's list starts with 0 and then holds exactly the relation
      job ids of the forms whose title contains the input. */
  lemma LabelJobIdsMembers(webforms: seq<WebformInfo>, input: string, relations: map<JobId, Relation>)
    ensures var ids := [0] + FormsJobIds(relations, MatchingWebforms(webforms, input));
      ids != [] && ids[0] == 0 &&
      forall k :: k in ids[1..] <==>
        k in relations && exists f :: f in webforms && f.id == relations[k].webformId && Contains(f.title, input)
  {
    var forms := MatchingWebforms(webforms, input);
    FormsJobIdsMembers(relations, forms);
    assert ([0] + FormsJobIds(relations, forms))[1..] == FormsJobIds(relations, forms);
  }

  method LabelQuery(q: ViewQuery, webforms: seq<WebformInfo>, input: string, relations: map<JobId, Relation>)
    modifies q
    ensures q.conditions == old(q.conditions) + [[0] + FormsJobIds(relations, MatchingWebforms(webforms, input))]
  {
    var ids := LabelJobIds(webforms, input, relations);
    q.AddWhere(ids);
  }
}
