/** The dashboard's session job list: the add, edit, update and delete
    handlers, the load-time migration of saved records, and the summary
    counters shown above the table. */
module Dashboard {
  import opened JobTypes

  /** The dashboard's state: the job list and the record being edited. */
  datatype Session = Session(jobs: seq<Job>, editing: Option<Job>)

  // ---------------------------------------------------------------------------
  // Handlers

  /** The record the add handler builds: the form fields, the given id and an
      untouched pipeline. */
  function NewJob(f: FormData, id: string): Job {
    Job(id, f.title, f.company, f.description, f.jobLink, f.appliedDate,
        Pending, Waiting, None, NotYet, "")
  }

  /** The pipeline every new record starts with. */
  const FreshPipeline := Pipeline(Pending, Waiting, None, NotYet, "")

  /** The edit branch of the add handler: every record whose id matches gets
      the form fields `f`; everything else is left as it was. */
  function EditMatching(jobs: seq<Job>, id: string, f: FormData): (r: seq<Job>)
    ensures |r| == |jobs|
    ensures forall i :: 0 <= i < |r| ==> r[i].id == jobs[i].id
    ensures forall i :: 0 <= i < |r| ==> PipelineOf(r[i]) == PipelineOf(jobs[i])
    ensures forall i :: 0 <= i < |r| && jobs[i].id == id ==> FormOf(r[i]) == f
    ensures forall i :: 0 <= i < |r| && jobs[i].id != id ==> r[i] == jobs[i]
  {
    if jobs == [] then []
    else
      WithFormFrame(jobs[0], f);
      [if jobs[0].id == id then WithForm(jobs[0], f) else jobs[0]]
        + EditMatching(jobs[1..], id, f)
  }

  /** Submitting the form. While a record is being edited, the records with its
      id get the submitted form fields and editing ends; otherwise a new record
      with id `newId` is put at the front of the list. */
  function AddJob(s: Session, f: FormData, newId: string): (r: Session)
    ensures r.editing == None
    ensures s.editing == None ==>
      && |r.jobs| == |s.jobs| + 1
      && r.jobs[1..] == s.jobs
      && r.jobs[0].id == newId
      && FormOf(r.jobs[0]) == f
      && PipelineOf(r.jobs[0]) == FreshPipeline
    ensures s.editing != None ==>
      && |r.jobs| == |s.jobs|
      && (forall i :: 0 <= i < |r.jobs| ==>
            r.jobs[i].id == s.jobs[i].id && PipelineOf(r.jobs[i]) == PipelineOf(s.jobs[i]))
      && (forall i :: 0 <= i < |r.jobs| && s.jobs[i].id == s.editing.value.id ==>
            FormOf(r.jobs[i]) == f)
      && (forall i :: 0 <= i < |r.jobs| && s.jobs[i].id != s.editing.value.id ==>
            r.jobs[i] == s.jobs[i])
  {
    match s.editing
    case Some(e) => Session(EditMatching(s.jobs, e.id, f), None)
    case None => Session([NewJob(f, newId)] + s.jobs, None)
  }

  /** Choosing "Edit" on a record: the list is untouched. */
  function EditJob(s: Session, j: Job): (r: Session)
    ensures r.jobs == s.jobs && r.editing == Some(j)
  {
    s.(editing := Some(j))
  }

  /** Closing the form: the list is untouched. */
  function CancelEdit(s: Session): (r: Session)
    ensures r.jobs == s.jobs && r.editing == None
  {
    s.(editing := None)
  }

  /** `{ ...job, ...updates }`: every key present in the patch overwrites the
      record's field; absent keys leave it alone. */
  function Merge(j: Job, p: Patch): Job {
    Job(p.id.GetOr(j.id), p.title.GetOr(j.title), p.company.GetOr(j.company),
        p.description.GetOr(j.description), p.jobLink.GetOr(j.jobLink),
        p.appliedDate.GetOr(j.appliedDate), p.assessment.GetOr(j.assessment),
        p.response.GetOr(j.response), p.responseDate.GetOr(j.responseDate),
        p.interview.GetOr(j.interview), p.decision.GetOr(j.decision))
  }

  /** Each field of a merged record is the patch's value when the patch has the
      key and the record's own value otherwise. */
  lemma MergeFields(j: Job, p: Patch)
    ensures Merge(j, p).id == (if p.id.Some? then p.id.value else j.id)
    ensures Merge(j, p).title == (if p.title.Some? then p.title.value else j.title)
    ensures Merge(j, p).company == (if p.company.Some? then p.company.value else j.company)
    ensures Merge(j, p).description == (if p.description.Some? then p.description.value else j.description)
    ensures Merge(j, p).jobLink == (if p.jobLink.Some? then p.jobLink.value else j.jobLink)
    ensures Merge(j, p).appliedDate == (if p.appliedDate.Some? then p.appliedDate.value else j.appliedDate)
    ensures Merge(j, p).assessment == (if p.assessment.Some? then p.assessment.value else j.assessment)
    ensures Merge(j, p).response == (if p.response.Some? then p.response.value else j.response)
    ensures Merge(j, p).responseDate == (if p.responseDate.Some? then p.responseDate.value else j.responseDate)
    ensures Merge(j, p).interview == (if p.interview.Some? then p.interview.value else j.interview)
    ensures Merge(j, p).decision == (if p.decision.Some? then p.decision.value else j.decision)
    ensures Merge(j, EmptyPatch) == j
    ensures Merge(Merge(j, p), p) == Merge(j, p)
  {
  }

  /** The patch that applies `p` and then `q`: keys of `q` win. */
  function Then(p: Patch, q: Patch): Patch {
    Patch(if q.id.Some? then q.id else p.id,
          if q.title.Some? then q.title else p.title,
          if q.company.Some? then q.company else p.company,
          if q.description.Some? then q.description else p.description,
          if q.jobLink.Some? then q.jobLink else p.jobLink,
          if q.appliedDate.Some? then q.appliedDate else p.appliedDate,
          if q.assessment.Some? then q.assessment else p.assessment,
          if q.response.Some? then q.response else p.response,
          if q.responseDate.Some? then q.responseDate else p.responseDate,
          if q.interview.Some? then q.interview else p.interview,
          if q.decision.Some? then q.decision else p.decision)
  }

  /** Two successive merges are one merge of the combined patch. */
  lemma MergeThen(j: Job, p: Patch, q: Patch)
    ensures Merge(Merge(j, p), q) == Merge(j, Then(p, q))
  {
  }

  /** The update handler: every record whose id matches has `p` merged in. */
  function UpdateMatching(jobs: seq<Job>, id: string, p: Patch): (r: seq<Job>)
    ensures |r| == |jobs|
    ensures forall i :: 0 <= i < |r| && jobs[i].id == id ==> r[i] == Merge(jobs[i], p)
    ensures forall i :: 0 <= i < |r| && jobs[i].id != id ==> r[i] == jobs[i]
  {
    if jobs == [] then []
    else [if jobs[0].id == id then Merge(jobs[0], p) else jobs[0]]
           + UpdateMatching(jobs[1..], id, p)
  }

  function UpdateJob(s: Session, id: string, p: Patch): (r: Session)
    ensures r.editing == s.editing
    ensures |r.jobs| == |s.jobs|
    ensures forall i :: 0 <= i < |r.jobs| && s.jobs[i].id != id ==> r.jobs[i] == s.jobs[i]
    ensures forall i :: 0 <= i < |r.jobs| && s.jobs[i].id == id ==> r.jobs[i] == Merge(s.jobs[i], p)
  {
    s.(jobs := UpdateMatching(s.jobs, id, p))
  }

  /** An update whose patch does not carry an id keeps every record's id, so
      the positions of the list keep their identities. */
  lemma UpdateKeepsIds(jobs: seq<Job>, id: string, p: Patch)
    requires p.id == None
    ensures forall i :: 0 <= i < |jobs| ==> UpdateMatching(jobs, id, p)[i].id == jobs[i].id
  {
  }

  /** Number of records with the given id. */
  function CountId(jobs: seq<Job>, id: string): (n: nat)
    ensures n <= |jobs|
  {
    if jobs == [] then 0 else (if jobs[0].id == id then 1 else 0) + CountId(jobs[1..], id)
  }

  /** The delete handler: drops every record with the given id. */
  function DeleteMatching(jobs: seq<Job>, id: string): (r: seq<Job>)
    ensures |r| == |jobs| - CountId(jobs, id)
    ensures forall i :: 0 <= i < |r| ==> r[i].id != id
  {
    if jobs == [] then []
    else if jobs[0].id == id then DeleteMatching(jobs[1..], id)
    else [jobs[0]] + DeleteMatching(jobs[1..], id)
  }

  /** Delete keeps exactly the records whose id differs. */
  lemma {:induction false} DeleteMembership(jobs: seq<Job>, id: string)
    ensures forall j :: j in DeleteMatching(jobs, id) <==> j in jobs && j.id != id
  {
    if jobs != [] {
      DeleteMembership(jobs[1..], id);
      assert forall j :: j in jobs <==> j == jobs[0] || j in jobs[1..];
    }
  }

  function DeleteJob(s: Session, id: string): (r: Session)
    ensures r.editing == s.editing
    ensures forall j :: j in r.jobs <==> j in s.jobs && j.id != id
  {
    DeleteMembership(s.jobs, id);
    s.(jobs := DeleteMatching(s.jobs, id))
  }

  /** One step of delete: the head is kept exactly when its id differs. */
  lemma DeleteCons(x: Job, rest: seq<Job>, id: string)
    ensures DeleteMatching([x] + rest, id)
         == (if x.id == id then [] else [x]) + DeleteMatching(rest, id)
  {
    assert ([x] + rest)[0] == x;
    assert ([x] + rest)[1..] == rest;
  }

  /** Delete keeps the surviving records in their original order: it works
      piecewise on a split list. */
  lemma {:induction false} DeleteSplits(a: seq<Job>, b: seq<Job>, id: string)
    ensures DeleteMatching(a + b, id) == DeleteMatching(a, id) + DeleteMatching(b, id)
  {
    if a == [] {
      assert a + b == b;
    } else {
      var x, tail := a[0], a[1..];
      assert a == [x] + tail;
      assert a + b == [x] + (tail + b);
      DeleteCons(x, tail + b, id);
      DeleteCons(x, tail, id);
      DeleteSplits(tail, b, id);
      var h: seq<Job> := if x.id == id then [] else [x];
      assert h + (DeleteMatching(tail, id) + DeleteMatching(b, id))
          == (h + DeleteMatching(tail, id)) + DeleteMatching(b, id);
    }
  }

  lemma {:induction false} DeleteAbsent(jobs: seq<Job>, id: string)
    requires forall i :: 0 <= i < |jobs| ==> jobs[i].id != id
    ensures DeleteMatching(jobs, id) == jobs
  {
    if jobs != [] {
      DeleteAbsent(jobs[1..], id);
    }
  }

  lemma DeleteIdempotent(jobs: seq<Job>, id: string)
    ensures DeleteMatching(DeleteMatching(jobs, id), id) == DeleteMatching(jobs, id)
  {
    var r := DeleteMatching(jobs, id);
    forall i | 0 <= i < |r| ensures r[i].id != id {
      assert r[i] in r;
    }
    DeleteAbsent(r, id);
  }

  /** Adding a record and deleting it again by its fresh id restores the list. */
  lemma AddThenDelete(s: Session, f: FormData, newId: string)
    requires s.editing == None
    requires forall i :: 0 <= i < |s.jobs| ==> s.jobs[i].id != newId
    ensures DeleteJob(AddJob(s, f, newId), newId).jobs == s.jobs
  {
    DeleteSplits([NewJob(f, newId)], s.jobs, newId);
    DeleteAbsent(s.jobs, newId);
  }

  // ---------------------------------------------------------------------------
  // Loading and saving the list

  /** What the browser's local storage yields for the saved list: nothing
      (no key, or an empty string), text that does not parse as a list of
      records, or the parsed records. */
  datatype Saved = Absent | Malformed | Parsed(records: seq<StoredJob>)

  /** The outcome of the load effect: the list to show, and whether the saved
      data is discarded. */
  datatype Loaded = Loaded(jobs: seq<Job>, discardSaved: bool)

  /** Migration of one saved record: a missing `assessment` or `interview`
      becomes pending; every other field passes through. */
  function MigrateJob(sj: StoredJob): (j: Job)
    ensures j.assessment == (if sj.assessment.Some? then sj.assessment.value else Pending)
    ensures j.interview == (if sj.interview.Some? then sj.interview.value else NotYet)
    ensures j.id == sj.id && j.title == sj.title && j.company == sj.company
    ensures j.description == sj.description && j.jobLink == sj.jobLink
    ensures j.appliedDate == sj.appliedDate && j.response == sj.response
    ensures j.responseDate == sj.responseDate && j.decision == sj.decision
  {
    Job(sj.id, sj.title, sj.company, sj.description, sj.jobLink, sj.appliedDate,
        sj.assessment.GetOr(Pending), sj.response, sj.responseDate,
        sj.interview.GetOr(NotYet), sj.decision)
  }

  function MigrateAll(records: seq<StoredJob>): (r: seq<Job>)
    ensures |r| == |records|
    ensures forall i :: 0 <= i < |r| ==> r[i] == MigrateJob(records[i])
  {
    if records == [] then [] else [MigrateJob(records[0])] + MigrateAll(records[1..])
  }

  /** The load effect, run once on an empty list. */
  function Load(saved: Saved): (r: Loaded)
    ensures saved.Parsed? ==> r.jobs == MigrateAll(saved.records) && !r.discardSaved
    ensures !saved.Parsed? ==> r.jobs == []
    ensures r.discardSaved <==> saved.Malformed?
  {
    match saved
    case Absent => Loaded([], false)
    case Malformed => Loaded([], true)
    case Parsed(records) => Loaded(MigrateAll(records), false)
  }

  /** The save effect writes every record with all its keys. */
  function StoreJob(j: Job): StoredJob {
    StoredJob(j.id, j.title, j.company, j.description, j.jobLink, j.appliedDate,
              Some(j.assessment), j.response, j.responseDate, Some(j.interview), j.decision)
  }

  function StoreAll(jobs: seq<Job>): (r: seq<StoredJob>)
    ensures |r| == |jobs|
    ensures forall i :: 0 <= i < |r| ==> r[i] == StoreJob(jobs[i])
  {
    if jobs == [] then [] else [StoreJob(jobs[0])] + StoreAll(jobs[1..])
  }

  /** Saving the list and loading it again yields the same list. */
  lemma SaveLoadRoundTrip(jobs: seq<Job>)
    ensures Load(Parsed(StoreAll(jobs))) == Loaded(jobs, false)
  {
    var r := MigrateAll(StoreAll(jobs));
    assert |r| == |jobs|;
    forall i | 0 <= i < |r| ensures r[i] == jobs[i] {
    }
  }

  /** A write the dashboard makes to the saved list: removing it, or storing
      the given records. */
  datatype StorageWrite = RemoveSaved | WriteSaved(records: seq<StoredJob>)

  /** The writes of the first mount, in order. The load effect runs first and
      removes malformed data; the save effect then runs in the same commit on
      the initial empty list; and when the load effect replaced the list, the
      save effect runs once more on the loaded list. */
  function MountWrites(saved: Saved): (w: seq<StorageWrite>)
    ensures |w| >= 1
    ensures w[|w| - 1] == WriteSaved(StoreAll(Load(saved).jobs))
    ensures w[0] == (if saved.Malformed? then RemoveSaved else WriteSaved([]))
    ensures RemoveSaved in w <==> saved.Malformed?
  {
    match saved
    case Absent => [WriteSaved([])]
    case Malformed => [RemoveSaved, WriteSaved([]), WriteSaved([])]
    case Parsed(records) => [WriteSaved([]), WriteSaved(StoreAll(MigrateAll(records)))]
  }

  /** After the first mount, storage holds the loaded list, so loading it again
      shows the same list and discards nothing; malformed data ends up
      replaced by an empty list rather than removed. */
  lemma MountThenReload(saved: Saved)
    ensures var w := MountWrites(saved);
      Load(Parsed(w[|w| - 1].records)) == Loaded(Load(saved).jobs, false)
    ensures saved.Malformed? ==> MountWrites(saved)[|MountWrites(saved)| - 1] == WriteSaved([])
  {
    SaveLoadRoundTrip(Load(saved).jobs);
  }

  // ---------------------------------------------------------------------------
  // Summary counters

  function CountWhere(jobs: seq<Job>, p: Job -> bool): (n: nat)
    ensures n <= |jobs|
    ensures n == 0 <==> forall i :: 0 <= i < |jobs| ==> !p(jobs[i])
    ensures n == |jobs| <==> forall i :: 0 <= i < |jobs| ==> p(jobs[i])
  {
    if jobs == [] then 0
    else
      var rest := CountWhere(jobs[1..], p);
      assert forall i :: 1 <= i < |jobs| ==> jobs[i] == jobs[1..][i - 1];
      (if p(jobs[0]) then 1 else 0) + rest
  }

  /** A predicate implied by another counts at least as many records. */
  lemma {:induction false} CountMonotone(jobs: seq<Job>, p: Job -> bool, q: Job -> bool)
    requires forall j :: p(j) ==> q(j)
    ensures CountWhere(jobs, p) <= CountWhere(jobs, q)
  {
    if jobs != [] {
      CountMonotone(jobs[1..], p, q);
    }
  }

  /** Two predicates no record satisfies together count at most the list. */
  lemma {:induction false} CountDisjoint(jobs: seq<Job>, p: Job -> bool, q: Job -> bool)
    requires forall j :: !(p(j) && q(j))
    ensures CountWhere(jobs, p) + CountWhere(jobs, q) <= |jobs|
  {
    if jobs != [] {
      CountDisjoint(jobs[1..], p, q);
    }
  }

  /** Counting distributes over concatenation, so every counter is the sum of
      its counts on the parts of a split list. */
  lemma {:induction false} CountWhereAppend(a: seq<Job>, b: seq<Job>, p: Job -> bool)
    ensures CountWhere(a + b, p) == CountWhere(a, p) + CountWhere(b, p)
  {
    if a == [] {
      assert a + b == b;
    } else {
      assert (a + b)[0] == a[0];
      assert (a + b)[1..] == a[1..] + b;
      CountWhereAppend(a[1..], b, p);
    }
  }

  /** Three predicates of which every record satisfies exactly one split the
      list three ways. */
  lemma {:induction false} CountThreeWay(jobs: seq<Job>, p: Job -> bool, q: Job -> bool, r: Job -> bool)
    requires forall j :: (p(j) || q(j) || r(j)) && !(p(j) && q(j)) && !(p(j) && r(j)) && !(q(j) && r(j))
    ensures CountWhere(jobs, p) + CountWhere(jobs, q) + CountWhere(jobs, r) == |jobs|
  {
    if jobs != [] {
      CountThreeWay(jobs[1..], p, q, r);
    }
  }

  /** A predicate and its negation split the list. */
  lemma {:induction false} CountComplement(jobs: seq<Job>, p: Job -> bool, q: Job -> bool)
    requires forall j :: q(j) == !p(j)
    ensures CountWhere(jobs, p) + CountWhere(jobs, q) == |jobs|
  {
    if jobs != [] {
      CountComplement(jobs[1..], p, q);
    }
  }

  // The filters behind the counters, with the source's strict comparisons.

  predicate IsRejected(j: Job) { j.decision == "Rejected" }
  predicate HasPassedAssessment(j: Job) { AssessmentValue(j.assessment) == JsBool(true) }
  predicate IsOffered(j: Job) { j.decision == "Offered Job" }
  /** `job.response === true`: the "responses received" filter. */
  predicate ResponseIsTrue(j: Job) { ResponseValue(j.response) == JsBool(true) }
  predicate HasInterview(j: Job) { InterviewValue(j.interview) == JsBool(true) }
  predicate IsAwaitingResponse(j: Job) { ResponseValue(j.response) == JsNull }
  predicate HasPendingAssessment(j: Job) { AssessmentValue(j.assessment) == JsNull }
  predicate IsAwaitingInterview(j: Job) {
    InterviewValue(j.interview) == JsNull && AssessmentValue(j.assessment) == JsBool(true)
  }
  /** `job.response === false`: the "No Response Yet" filter. */
  predicate ResponseIsFalse(j: Job) { ResponseValue(j.response) == JsBool(false) }
  predicate IsActive(j: Job) { j.decision == "" }

  /** The percentage `n / total * 100`, or 0 for an empty list. Rounding to one
      decimal for display is not modelled. */
  function Rate(n: nat, total: nat): (r: real)
    requires n <= total
    ensures total == 0 ==> r == 0.0
    ensures 0.0 <= r <= 100.0
    ensures r == 0.0 <==> n == 0 || total == 0
    ensures total > 0 ==> (r == 100.0 <==> n == total)
  {
    if total > 0 then (n as real) / (total as real) * 100.0 else 0.0
  }

  datatype Summary = Summary(
    total: nat,
    rejected: nat,
    assessmentsPassed: nat,
    offers: nat,
    responses: nat,
    interviews: nat,
    responseRate: real,
    interviewRate: real,
    awaitingResponse: nat,
    pendingAssessments: nat,
    awaitingInterviews: nat,
    noResponseYet: nat,
    active: nat)

  /** The dashboard's summary of the list, as the source computes it. */
  function Summarize(jobs: seq<Job>): (s: Summary)
    ensures s.total == |jobs|
    ensures s.rejected <= s.total && s.assessmentsPassed <= s.total
    ensures s.offers <= s.total && s.interviews <= s.total
    ensures s.awaitingResponse <= s.total && s.pendingAssessments <= s.total
    ensures s.awaitingInterviews <= s.total && s.active <= s.total
    ensures s.rejected == 0 <==> forall i :: 0 <= i < |jobs| ==> jobs[i].decision != "Rejected"
    ensures s.offers == 0 <==> forall i :: 0 <= i < |jobs| ==> jobs[i].decision != "Offered Job"
    ensures s.awaitingResponse == s.total <==> forall i :: 0 <= i < |jobs| ==> jobs[i].response == Waiting
    ensures s.total == 0 ==> s.responseRate == 0.0 && s.interviewRate == 0.0
    ensures s.interviewRate == 0.0 <==> s.interviews == 0
  {
    var total := |jobs|;
    var responses := CountWhere(jobs, ResponseIsTrue);
    var interviews := CountWhere(jobs, HasInterview);
    Summary(
      total,
      CountWhere(jobs, IsRejected),
      CountWhere(jobs, HasPassedAssessment),
      CountWhere(jobs, IsOffered),
      responses,
      interviews,
      Rate(responses, total),
      Rate(interviews, total),
      CountWhere(jobs, IsAwaitingResponse),
      CountWhere(jobs, HasPendingAssessment),
      CountWhere(jobs, IsAwaitingInterview),
      CountWhere(jobs, ResponseIsFalse),
      CountWhere(jobs, IsActive))
  }

  /** The counters that are subsets of or disjoint from one another. */
  lemma SummaryRelations(jobs: seq<Job>)
    ensures var s := Summarize(jobs);
      && s.awaitingInterviews <= s.assessmentsPassed
      && s.awaitingInterviews + s.interviews <= |jobs|
      && s.rejected + s.offers <= |jobs|
      && s.rejected + s.active <= |jobs|
  {
    CountMonotone(jobs, IsAwaitingInterview, HasPassedAssessment);
    CountDisjoint(jobs, IsAwaitingInterview, HasInterview);
    CountDisjoint(jobs, IsRejected, IsOffered);
    CountDisjoint(jobs, IsRejected, IsActive);
  }

  /** `response` never holds a boolean, so the "responses received" and
      "No Response Yet" counters are 0 and the response rate is 0 for every
      list. */
  lemma ResponseCountersAlwaysZero(jobs: seq<Job>)
    ensures Summarize(jobs).responses == 0
    ensures Summarize(jobs).noResponseYet == 0
    ensures Summarize(jobs).responseRate == 0.0
  {
    forall i | 0 <= i < |jobs| ensures !ResponseIsTrue(jobs[i]) && !ResponseIsFalse(jobs[i]) {
      ResponseNeverBoolean(jobs[i].response);
    }
  }

  /** A record created by the add handler is counted as awaiting a response,
      pending assessment and active, and nowhere else. */
  lemma NewJobSummary(f: FormData, id: string)
    ensures Summarize([NewJob(f, id)]) ==
      Summary(1, 0, 0, 0, 0, 0, 0.0, 0.0, 1, 1, 0, 0, 1)
  {
  }

  // The two response counters as evidently intended. A response is an answer
  // from the employer: an assessment, an interview or a rejection. The value
  // `no_response` records that no answer came within a month, which is what
  // the "No Response Yet" card of the application-status panel counts.

  predicate HasResponse(j: Job) { j.response != Waiting && j.response != NoResponse }

  predicate IsGhosted(j: Job) { j.response == NoResponse }

  function RespondedCount(jobs: seq<Job>): (n: nat)
    ensures n <= |jobs|
    ensures n == 0 <==> forall i :: 0 <= i < |jobs| ==> (jobs[i].response == Waiting || jobs[i].response == NoResponse)
    ensures n == |jobs| <==> forall i :: 0 <= i < |jobs| ==> jobs[i].response != Waiting && jobs[i].response != NoResponse
  {
    CountWhere(jobs, HasResponse)
  }

  function NoResponseYetCount(jobs: seq<Job>): (n: nat)
    ensures n <= |jobs|
    ensures n == 0 <==> forall i :: 0 <= i < |jobs| ==> jobs[i].response != NoResponse
    ensures n == |jobs| <==> forall i :: 0 <= i < |jobs| ==> jobs[i].response == NoResponse
  {
    CountWhere(jobs, IsGhosted)
  }

  /** Every record is awaiting a response, has one, or got none within a
      month: the awaiting counter and the two intended counters split the
      list. */
  lemma RespondedSplitsList(jobs: seq<Job>)
    ensures Summarize(jobs).awaitingResponse + RespondedCount(jobs) + NoResponseYetCount(jobs) == |jobs|
  {
    CountThreeWay(jobs, IsAwaitingResponse, HasResponse, IsGhosted);
  }

  function CorrectedResponseRate(jobs: seq<Job>): (r: real)
    ensures |jobs| == 0 ==> r == 0.0
    ensures r == 0.0 <==> forall i :: 0 <= i < |jobs| ==> (jobs[i].response == Waiting || jobs[i].response == NoResponse)
  {
    Rate(RespondedCount(jobs), |jobs|)
  }

  /** A one-record list whose record has an interview response: the counter
      as written reports no responses, the intended one reports one. */
  lemma ResponsesCounterMissesResponse()
    ensures var j := Job("1", "Engineer", "Acme", "", "", "2025-01-01",
                         Pending, GotInterview, None, NotYet, "");
            Summarize([j]).responses == 0 && RespondedCount([j]) == 1
  {
    var j := Job("1", "Engineer", "Acme", "", "", "2025-01-01",
                 Pending, GotInterview, None, NotYet, "");
    ResponseCountersAlwaysZero([j]);
  }

  /** A one-record list whose record got no response within a month: the
      "No Response Yet" counter as written reports 0, the intended one reports
      1, and that record does not raise the intended response rate. */
  lemma NoResponseCounterMissesGhosted()
    ensures var j := Job("1", "Engineer", "Acme", "", "", "2025-01-01",
                         Pending, NoResponse, None, NotYet, "Rejected");
            && Summarize([j]).noResponseYet == 0
            && NoResponseYetCount([j]) == 1
            && CorrectedResponseRate([j]) == 0.0
  {
    var j := Job("1", "Engineer", "Acme", "", "", "2025-01-01",
                 Pending, NoResponse, None, NotYet, "Rejected");
    ResponseCountersAlwaysZero([j]);
  }
}
