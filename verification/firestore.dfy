/** The mapping between records and the documents of the `jobApplications`
    collection: the document built on create, the update data built from a
    patch, the record read back from a document, and the sequence of writes
    the migration from the browser's local storage issues.

    The database calls themselves are not modelled. The two date converters
    are parameters: `toTimestamp` stands for `Timestamp.fromDate(new Date(s))`
    and `toDateText` for `t.toDate().toISOString().split('T')[0]`; the current
    time is a parameter `now`. */
module Firestore {
  import opened JobTypes
  import Dashboard

  datatype Timestamp = Timestamp(ms: int)

  /** A stored document. Its declared type omits "no_response" from the
      response union, but nothing stops that value being written, so the field
      holds any response. */
  datatype Document = Document(
    title: string,
    company: string,
    description: string,
    jobLink: string,
    appliedDate: string,
    assessment: Assessment,
    response: Response,
    responseDate: Option<Timestamp>,
    interview: Interview,
    decision: string,
    userId: string,
    createdAt: Timestamp,
    updatedAt: Timestamp)

  /** `convertStringToTimestamp`: `null` and the empty string (both falsy)
      become `null`. */
  function StringToTimestamp(s: Option<string>, toTimestamp: string -> Timestamp): (t: Option<Timestamp>)
    ensures t.None? <==> s.None? || s.value == ""
    ensures t.Some? ==> t.value == toTimestamp(s.value)
  {
    match s
    case None => None
    case Some(text) => if text == "" then None else Some(toTimestamp(text))
  }

  /** `convertTimestampToString`: a timestamp object is always truthy. */
  function TimestampToString(t: Option<Timestamp>, toDateText: Timestamp -> string): (s: Option<string>)
    ensures s.None? <==> t.None?
    ensures s.Some? ==> s.value == toDateText(t.value)
  {
    match t
    case None => None
    case Some(ts) => Some(toDateText(ts))
  }

  /** The converters agree on `text`: converting it to a timestamp and back
      gives it again. */
  ghost predicate DateRoundTrips(text: string, toTimestamp: string -> Timestamp, toDateText: Timestamp -> string) {
    toDateText(toTimestamp(text)) == text
  }

  /** A missing response date survives storing and reading; a present one does
      when it is nonempty and the converters agree on it. */
  lemma ResponseDateRoundTrip(s: Option<string>, toTimestamp: string -> Timestamp, toDateText: Timestamp -> string)
    requires s.Some? ==> s.value != "" && DateRoundTrips(s.value, toTimestamp, toDateText)
    ensures TimestampToString(StringToTimestamp(s, toTimestamp), toDateText) == s
  {
  }

  /** An empty response date is stored as `null` and read back as missing. */
  lemma EmptyResponseDateIsLost(toTimestamp: string -> Timestamp, toDateText: Timestamp -> string)
    ensures TimestampToString(StringToTimestamp(Some(""), toTimestamp), toDateText) == None
  {
  }

  // ---------------------------------------------------------------------------
  // Create

  /** `addJobApplication`: the form fields, the owner, a fresh pipeline and
      both audit times set to now. */
  function NewDocument(userId: string, f: FormData, now: Timestamp): (d: Document)
    ensures d.userId == userId && d.createdAt == now && d.updatedAt == now
  {
    Document(f.title, f.company, f.description, f.jobLink, f.appliedDate,
             Pending, Waiting, None, NotYet, "", userId, now, now)
  }

  // ---------------------------------------------------------------------------
  // Read

  /** The record `getUserJobApplications` builds from a document: the
      document id, every domain field as stored, and the response date
      converted to text. */
  function ReadJob(docId: string, d: Document, toDateText: Timestamp -> string): (j: Job)
    ensures j.id == docId
    ensures FormOf(j) == FormData(d.title, d.company, d.description, d.jobLink, d.appliedDate)
    ensures j.assessment == d.assessment && j.response == d.response
    ensures j.interview == d.interview && j.decision == d.decision
    ensures j.responseDate.Some? <==> d.responseDate.Some?
  {
    Job(docId, d.title, d.company, d.description, d.jobLink, d.appliedDate,
        d.assessment, d.response, TimestampToString(d.responseDate, toDateText),
        d.interview, d.decision)
  }

  /** A query result: documents with their ids, already filtered to the user
      and ordered by the database. */
  function ReadAll(snapshot: seq<(string, Document)>, toDateText: Timestamp -> string): (jobs: seq<Job>)
    ensures |jobs| == |snapshot|
    ensures forall i :: 0 <= i < |jobs| ==> jobs[i] == ReadJob(snapshot[i].0, snapshot[i].1, toDateText)
  {
    if snapshot == [] then []
    else [ReadJob(snapshot[0].0, snapshot[0].1, toDateText)] + ReadAll(snapshot[1..], toDateText)
  }

  /** A freshly created document reads back as exactly the record the
      dashboard's add handler builds for the same form and id. */
  lemma CreateThenRead(userId: string, f: FormData, now: Timestamp, docId: string,
                       toDateText: Timestamp -> string)
    ensures ReadJob(docId, NewDocument(userId, f, now), toDateText) == Dashboard.NewJob(f, docId)
  {
  }

  // ---------------------------------------------------------------------------
  // Update

  /** `Partial<FirestoreJobApplication>` as `updateJobApplication` builds it:
      `None` is a key left out. There is no id key. */
  datatype UpdateData = UpdateData(
    title: Option<string>,
    company: Option<string>,
    description: Option<string>,
    jobLink: Option<string>,
    appliedDate: Option<string>,
    assessment: Option<Assessment>,
    response: Option<Response>,
    responseDate: Option<Option<Timestamp>>,
    interview: Option<Interview>,
    decision: Option<string>,
    updatedAt: Timestamp)

  /** Copies every defined field of the patch, including fields explicitly
      `null`; converts the response date; always sets `updatedAt`. */
  function BuildUpdate(updates: Patch, now: Timestamp, toTimestamp: string -> Timestamp): (u: UpdateData)
    ensures u.updatedAt == now
    ensures u.title == updates.title && u.company == updates.company
    ensures u.description == updates.description && u.jobLink == updates.jobLink
    ensures u.appliedDate == updates.appliedDate && u.assessment == updates.assessment
    ensures u.response == updates.response && u.interview == updates.interview
    ensures u.decision == updates.decision
    ensures u.responseDate.Some? <==> updates.responseDate.Some?
    ensures u.responseDate.Some? ==>
      u.responseDate.value == StringToTimestamp(updates.responseDate.value, toTimestamp)
  {
    UpdateData(
      updates.title, updates.company, updates.description, updates.jobLink,
      updates.appliedDate, updates.assessment, updates.response,
      match updates.responseDate
        case None => None
        case Some(date) => Some(StringToTimestamp(date, toTimestamp)),
      updates.interview, updates.decision, now)
  }

  /** An empty patch writes only `updatedAt`; an explicit `null` response date
      is written as `null`, and an id in the patch is never written. */
  lemma BuildUpdateFacts(updates: Patch, now: Timestamp, toTimestamp: string -> Timestamp)
    ensures BuildUpdate(EmptyPatch, now, toTimestamp) ==
      UpdateData(None, None, None, None, None, None, None, None, None, None, now)
    ensures updates.responseDate == Some(None) ==>
      BuildUpdate(updates, now, toTimestamp).responseDate == Some(None)
    ensures BuildUpdate(updates.(id := None), now, toTimestamp) == BuildUpdate(updates, now, toTimestamp)
  {
  }

  /** `updateDoc`: the keys present overwrite the document's fields. */
  function ApplyUpdate(d: Document, u: UpdateData): Document {
    Document(u.title.GetOr(d.title), u.company.GetOr(d.company),
             u.description.GetOr(d.description), u.jobLink.GetOr(d.jobLink),
             u.appliedDate.GetOr(d.appliedDate), u.assessment.GetOr(d.assessment),
             u.response.GetOr(d.response), u.responseDate.GetOr(d.responseDate),
             u.interview.GetOr(d.interview), u.decision.GetOr(d.decision),
             d.userId, d.createdAt, u.updatedAt)
  }

  /** Writing a patch to a document and reading it back gives the record the
      dashboard gets by merging the patch in memory, provided the patch does
      not change the id and any response date in it is nonempty text the
      converters agree on. */
  lemma UpdateThenRead(docId: string, d: Document, p: Patch, now: Timestamp,
                       toTimestamp: string -> Timestamp, toDateText: Timestamp -> string)
    requires p.id.None? || p.id == Some(docId)
    requires p.responseDate.Some? && p.responseDate.value.Some? ==>
      p.responseDate.value.value != "" && DateRoundTrips(p.responseDate.value.value, toTimestamp, toDateText)
    ensures ReadJob(docId, ApplyUpdate(d, BuildUpdate(p, now, toTimestamp)), toDateText)
         == Dashboard.Merge(ReadJob(docId, d, toDateText), p)
  {
    if p.responseDate.Some? {
      ResponseDateRoundTrip(p.responseDate.value, toTimestamp, toDateText);
    }
  }

  /** Updating with an empty response date stores `null`: reading back gives
      no date, where the in-memory merge keeps the empty text. */
  lemma EmptyDateUpdateDiverges(docId: string, d: Document, now: Timestamp,
                                toTimestamp: string -> Timestamp, toDateText: Timestamp -> string)
    ensures var p := EmptyPatch.(responseDate := Some(Some("")));
      && ReadJob(docId, ApplyUpdate(d, BuildUpdate(p, now, toTimestamp)), toDateText).responseDate == None
      && Dashboard.Merge(ReadJob(docId, d, toDateText), p).responseDate == Some("")
  {
  }

  // ---------------------------------------------------------------------------
  // Migration from local storage

  /** One write of the migration. `target` of an update is the position, among
      the migration's adds, of the add that created the document it writes. */
  datatype Op = Add(doc: Document) | Update(target: nat, data: UpdateData)

  datatype MigrationOutcome =
    | NothingToMigrate          // no saved list: return at once, storage kept
    | ParseFailed               // the saved text does not parse: the error is rethrown
    | Migrated(ops: seq<Op>)    // every write issued, then the saved list removed

  function FormOfStored(sj: StoredJob): FormData {
    FormData(sj.title, sj.company, sj.description, sj.jobLink, sj.appliedDate)
  }

  /** `job.assessment !== null || job.response !== null || job.interview !== null
      || job.decision !== ''`, where a missing key is `undefined` and so is not
      `null`. */
  predicate HasPipelineData(sj: StoredJob) {
    || sj.assessment != Some(Pending)
    || sj.response != Waiting
    || sj.interview != Some(NotYet)
    || sj.decision != ""
  }

  /** The patch written to the second copy: a missing key stays undefined and
      is skipped by the update builder. */
  function PipelinePatch(sj: StoredJob): Patch {
    EmptyPatch.(assessment := sj.assessment, response := Some(sj.response),
                responseDate := Some(sj.responseDate), interview := sj.interview,
                decision := Some(sj.decision))
  }

  /** The writes for one saved record, given how many adds came before. */
  function JobOps(sj: StoredJob, addsBefore: nat, userId: string, now: Timestamp,
                  toTimestamp: string -> Timestamp): (ops: seq<Op>)
    ensures |ops| == if HasPipelineData(sj) then 3 else 1
  {
    var doc := NewDocument(userId, FormOfStored(sj), now);
    [Add(doc)]
      + if HasPipelineData(sj)
        then [Add(doc), Update(addsBefore + 1, BuildUpdate(PipelinePatch(sj), now, toTimestamp))]
        else []
  }

  /** Number of saved records that carry pipeline data. */
  function PipelineCount(records: seq<StoredJob>): (k: nat)
    ensures k <= |records|
  {
    if records == [] then 0
    else PipelineCount(records[..|records| - 1]) + (if HasPipelineData(records[|records| - 1]) then 1 else 0)
  }

  /** The writes of the whole loop, record by record in order. */
  function MigrationLog(records: seq<StoredJob>, userId: string, now: Timestamp,
                        toTimestamp: string -> Timestamp): seq<Op>
  {
    if records == [] then []
    else
      var init := records[..|records| - 1];
      MigrationLog(init, userId, now, toTimestamp)
        + JobOps(records[|records| - 1], |init| + PipelineCount(init), userId, now, toTimestamp)
  }

  function AddCount(ops: seq<Op>): (n: nat)
    ensures n <= |ops|
  {
    if ops == [] then 0 else AddCount(ops[..|ops| - 1]) + (if ops[|ops| - 1].Add? then 1 else 0)
  }

  lemma {:induction false} AddCountAppend(a: seq<Op>, b: seq<Op>)
    ensures AddCount(a + b) == AddCount(a) + AddCount(b)
  {
    if b != [] {
      var b' := b[..|b| - 1];
      assert (a + b)[..|a + b| - 1] == a + b';
      assert (a + b)[|a + b| - 1] == b[|b| - 1];
      AddCountAppend(a, b');
    } else {
      assert a + b == a;
    }
  }

  /** Every update writes the document created by the add right before it. */
  ghost predicate UpdatesFollowTheirAdd(ops: seq<Op>) {
    forall p :: 0 <= p < |ops| && ops[p].Update? ==>
      p >= 1 && ops[p - 1].Add? && ops[p].target == AddCount(ops[..p]) - 1
  }

  lemma UpdatesFollowAppend(a: seq<Op>, sj: StoredJob, userId: string, now: Timestamp,
                            toTimestamp: string -> Timestamp)
    requires UpdatesFollowTheirAdd(a)
    ensures UpdatesFollowTheirAdd(a + JobOps(sj, AddCount(a), userId, now, toTimestamp))
  {
    var b := JobOps(sj, AddCount(a), userId, now, toTimestamp);
    var ops := a + b;
    forall p | 0 <= p < |ops| && ops[p].Update?
      ensures p >= 1 && ops[p - 1].Add? && ops[p].target == AddCount(ops[..p]) - 1
    {
      if p < |a| {
        assert ops[..p] == a[..p];
        assert ops[p] == a[p];
      } else {
        assert p == |a| + 2;
        assert ops[..p] == a + b[..2];
        AddCountAppend(a, b[..2]);
        assert b[..2][..1] == [b[0]];
        assert AddCount(b[..2]) == 2;
      }
    }
  }

  lemma JobOpsAdds(sj: StoredJob, addsBefore: nat, userId: string, now: Timestamp,
                    toTimestamp: string -> Timestamp)
    ensures AddCount(JobOps(sj, addsBefore, userId, now, toTimestamp))
         == if HasPipelineData(sj) then 2 else 1
  {
    var step := JobOps(sj, addsBefore, userId, now, toTimestamp);
    var first := [step[0]];
    assert first[..0] == [];
    assert AddCount(first) == 1;
    if HasPipelineData(sj) {
      var two := step[..2];
      assert two[..1] == first;
      assert AddCount(two) == 2;
      assert step[..2] == two;
      assert step[2].Update?;
    } else {
      assert step == first;
    }
  }

  /** Extending the processed prefix by one record appends that record's
      writes to the log. */
  lemma LogStep(records: seq<StoredJob>, i: nat, userId: string, now: Timestamp,
                toTimestamp: string -> Timestamp)
    requires i < |records|
    ensures MigrationLog(records[..i + 1], userId, now, toTimestamp)
         == MigrationLog(records[..i], userId, now, toTimestamp)
            + JobOps(records[i], i + PipelineCount(records[..i]), userId, now, toTimestamp)
    ensures PipelineCount(records[..i + 1])
         == PipelineCount(records[..i]) + (if HasPipelineData(records[i]) then 1 else 0)
  {
    assert records[..i + 1][..i] == records[..i];
    assert records[..i + 1][i] == records[i];
  }

  /** The migration loop. For each saved record it adds a document with the
      record's form fields; a record with pipeline data gets a second document,
      and only that second one is updated with the pipeline fields. */
  method Migrate(userId: string, saved: Dashboard.Saved, now: Timestamp,
                 toTimestamp: string -> Timestamp) returns (outcome: MigrationOutcome)
    ensures saved.Absent? ==> outcome == NothingToMigrate
    ensures saved.Malformed? ==> outcome == ParseFailed
    ensures saved.Parsed? ==> outcome.Migrated?
    ensures outcome.Migrated? ==>
      var n, k := |saved.records|, PipelineCount(saved.records);
      && outcome.ops == MigrationLog(saved.records, userId, now, toTimestamp)
      && |outcome.ops| == n + 2 * k
      && AddCount(outcome.ops) == n + k
      && UpdatesFollowTheirAdd(outcome.ops)
  {
    match saved
    case Absent => return NothingToMigrate;
    case Malformed => return ParseFailed;
    case Parsed(records) =>
      var ops: seq<Op> := [];
      var adds: nat := 0;
      var i := 0;
      while i < |records|
        invariant 0 <= i <= |records|
        invariant ops == MigrationLog(records[..i], userId, now, toTimestamp)
        invariant adds == i + PipelineCount(records[..i])
        invariant adds == AddCount(ops)
        invariant |ops| == i + 2 * PipelineCount(records[..i])
        invariant UpdatesFollowTheirAdd(ops)
      {
        var sj := records[i];
        var step := JobOps(sj, adds, userId, now, toTimestamp);
        LogStep(records, i, userId, now, toTimestamp);
        UpdatesFollowAppend(ops, sj, userId, now, toTimestamp);
        AddCountAppend(ops, step);
        JobOpsAdds(sj, adds, userId, now, toTimestamp);
        ops := ops + step;
        adds := adds + (if HasPipelineData(sj) then 2 else 1);
        i := i + 1;
      }
      assert records[..|records|] == records;
      return Migrated(ops);
  }

  /** The updated second copy of a migrated record reads back as the record
      the dashboard's load migration produces, under the new document's id,
      when any response date in it is nonempty text the converters agree on. */
  lemma MigratedCopyReadsBack(sj: StoredJob, userId: string, now: Timestamp, docId: string,
                              toTimestamp: string -> Timestamp, toDateText: Timestamp -> string)
    requires sj.responseDate.Some? ==>
      sj.responseDate.value != "" && DateRoundTrips(sj.responseDate.value, toTimestamp, toDateText)
    ensures ReadJob(docId, ApplyUpdate(NewDocument(userId, FormOfStored(sj), now),
                                       BuildUpdate(PipelinePatch(sj), now, toTimestamp)), toDateText)
         == Dashboard.MigrateJob(sj).(id := docId)
  {
    ResponseDateRoundTrip(sj.responseDate, toTimestamp, toDateText);
  }

  /** A record saved before the `interview` field existed counts as carrying
      pipeline data (a missing key is not `null`), so it is copied twice even
      when every present field is at its default. */
  lemma MissingKeyDuplicates(sj: StoredJob)
    requires sj.assessment == Some(Pending) && sj.response == Waiting && sj.decision == ""
    ensures HasPipelineData(sj) <==> sj.interview != Some(NotYet)
    ensures sj.interview == None ==> HasPipelineData(sj)
  {
  }
}
