/** The job-application record and the values its pipeline fields may take.

    The source stores the pipeline fields as JavaScript unions of `null`,
    booleans and string tags. Here each field is an explicit enumeration;
    `JsScalar` recovers the JavaScript value a field holds, so that the
    source's strict comparisons (`=== null`, `=== true`, `=== 'n/a'`) can be
    stated exactly as written, including the ones that can never hold. */
module JobTypes {

  datatype Option<+T> = None | Some(value: T) {
    /** The value held, or `default` when absent. */
    function GetOr(default: T): T {
      match this
      case Some(v) => v
      case None => default
    }
  }

  /** `assessment: boolean | null | 'n/a'` */
  datatype Assessment = Pending | Passed | NotPassed | NotApplicable

  /** `response: 'assessment' | 'interview' | 'rejection' | 'no_response' | null`,
      with `null` (still waiting) as the value `Waiting`. */
  datatype Response = Waiting | GotAssessment | GotInterview | Rejection | NoResponse

  /** `interview: boolean | null` */
  datatype Interview = NotYet | Scheduled | NoInterview

  /** The five fields the add/edit form supplies. */
  datatype FormData = FormData(
    title: string,
    company: string,
    description: string,
    jobLink: string,
    appliedDate: string)

  /** One tracked application. `decision` is a free string: the user interface
      offers "", "Rejected" and "Offered Job", but the type admits any text. */
  datatype Job = Job(
    id: string,
    title: string,
    company: string,
    description: string,
    jobLink: string,
    appliedDate: string,
    assessment: Assessment,
    response: Response,
    responseDate: Option<string>,
    interview: Interview,
    decision: string)

  /** A record as `JSON.parse` returns it from the browser's local storage.
      Records saved before the `assessment` and `interview` fields existed lack
      those keys: `None` there is a missing key. Every other key is present. */
  datatype StoredJob = StoredJob(
    id: string,
    title: string,
    company: string,
    description: string,
    jobLink: string,
    appliedDate: string,
    assessment: Option<Assessment>,
    response: Response,
    responseDate: Option<string>,
    interview: Option<Interview>,
    decision: string)

  /** The pipeline part of a record: everything the form does not supply. */
  datatype Pipeline = Pipeline(
    assessment: Assessment,
    response: Response,
    responseDate: Option<string>,
    interview: Interview,
    decision: string)

  /** A `Partial<JobApplication>`: `None` is an absent (undefined) key,
      `Some(v)` a key present with value `v`. For `responseDate`, `Some(None)`
      is a key present with value `null`. */
  datatype Patch = Patch(
    id: Option<string>,
    title: Option<string>,
    company: Option<string>,
    description: Option<string>,
    jobLink: Option<string>,
    appliedDate: Option<string>,
    assessment: Option<Assessment>,
    response: Option<Response>,
    responseDate: Option<Option<string>>,
    interview: Option<Interview>,
    decision: Option<string>)

  const EmptyPatch := Patch(None, None, None, None, None, None, None, None, None, None, None)

  function FormOf(j: Job): FormData {
    FormData(j.title, j.company, j.description, j.jobLink, j.appliedDate)
  }

  function PipelineOf(j: Job): Pipeline {
    Pipeline(j.assessment, j.response, j.responseDate, j.interview, j.decision)
  }

  /** `{ ...job, ...formData }`: the form fields of `j` replaced by `f`. */
  function WithForm(j: Job, f: FormData): Job {
    j.(title := f.title, company := f.company, description := f.description,
       jobLink := f.jobLink, appliedDate := f.appliedDate)
  }

  /** A record is determined by its id, its form fields and its pipeline fields,
      and overwriting the form fields touches nothing else. */
  lemma WithFormFrame(j: Job, f: FormData)
    ensures FormOf(WithForm(j, f)) == f
    ensures WithForm(j, f).id == j.id
    ensures PipelineOf(WithForm(j, f)) == PipelineOf(j)
    ensures WithForm(j, FormOf(j)) == j
  {
  }

  // The JavaScript value a pipeline field holds.

  datatype JsScalar = JsNull | JsBool(b: bool) | JsString(s: string)

  /** JavaScript truthiness of a scalar: `null`, `false` and `""` are falsy. */
  predicate Truthy(v: JsScalar) {
    match v
    case JsNull => false
    case JsBool(b) => b
    case JsString(s) => s != ""
  }

  function AssessmentValue(a: Assessment): JsScalar {
    match a
    case Pending => JsNull
    case Passed => JsBool(true)
    case NotPassed => JsBool(false)
    case NotApplicable => JsString("n/a")
  }

  function ResponseTag(r: Response): string {
    match r
    case Waiting => ""
    case GotAssessment => "assessment"
    case GotInterview => "interview"
    case Rejection => "rejection"
    case NoResponse => "no_response"
  }

  function ResponseValue(r: Response): JsScalar {
    if r == Waiting then JsNull else JsString(ResponseTag(r))
  }

  function InterviewValue(i: Interview): JsScalar {
    match i
    case NotYet => JsNull
    case Scheduled => JsBool(true)
    case NoInterview => JsBool(false)
  }

  /** Reads a stored scalar back as an assessment; `None` for any value
      outside the four the type admits. */
  function AssessmentOfValue(v: JsScalar): (r: Option<Assessment>)
    ensures r.Some? ==> AssessmentValue(r.value) == v
  {
    match v
    case JsNull => Some(Pending)
    case JsBool(b) => if b then Some(Passed) else Some(NotPassed)
    case JsString(s) => if s == "n/a" then Some(NotApplicable) else None
  }

  function ResponseOfValue(v: JsScalar): (r: Option<Response>)
    ensures r.Some? ==> ResponseValue(r.value) == v
  {
    match v
    case JsNull => Some(Waiting)
    case JsBool(_) => None
    case JsString(s) =>
      if s == "assessment" then Some(GotAssessment)
      else if s == "interview" then Some(GotInterview)
      else if s == "rejection" then Some(Rejection)
      else if s == "no_response" then Some(NoResponse)
      else None
  }

  function InterviewOfValue(v: JsScalar): (r: Option<Interview>)
    ensures r.Some? ==> InterviewValue(r.value) == v
  {
    match v
    case JsNull => Some(NotYet)
    case JsBool(b) => if b then Some(Scheduled) else Some(NoInterview)
    case JsString(_) => None
  }

  /** Each status field takes exactly the values its TypeScript union lists:
      the stored value of every state reads back as that state, and a scalar
      reads back as a state only if it is that state's stored value. */
  lemma ScalarRoundTrip(a: Assessment, r: Response, i: Interview)
    ensures AssessmentOfValue(AssessmentValue(a)) == Some(a)
    ensures ResponseOfValue(ResponseValue(r)) == Some(r)
    ensures InterviewOfValue(InterviewValue(i)) == Some(i)
  {
  }

  const AllAssessments: seq<Assessment> := [Pending, Passed, NotPassed, NotApplicable]
  const AllResponses: seq<Response> := [Waiting, GotAssessment, GotInterview, Rejection, NoResponse]
  const AllInterviews: seq<Interview> := [NotYet, Scheduled, NoInterview]

  /** Four assessment states, five response states, three interview states,
      each listed once. */
  lemma StateCounts()
    ensures forall a: Assessment :: a in AllAssessments
    ensures forall r: Response :: r in AllResponses
    ensures forall i: Interview :: i in AllInterviews
    ensures |AllAssessments| == 4 && |set a | a in AllAssessments| == 4
    ensures |AllResponses| == 5 && |set r | r in AllResponses| == 5
    ensures |AllInterviews| == 3 && |set i | i in AllInterviews| == 3
  {
    forall a: Assessment ensures a in AllAssessments {
      match a
      case Pending => assert AllAssessments[0] == a;
      case Passed => assert AllAssessments[1] == a;
      case NotPassed => assert AllAssessments[2] == a;
      case NotApplicable => assert AllAssessments[3] == a;
    }
    forall r: Response ensures r in AllResponses {
      match r
      case Waiting => assert AllResponses[0] == r;
      case GotAssessment => assert AllResponses[1] == r;
      case GotInterview => assert AllResponses[2] == r;
      case Rejection => assert AllResponses[3] == r;
      case NoResponse => assert AllResponses[4] == r;
    }
    forall i: Interview ensures i in AllInterviews {
      match i
      case NotYet => assert AllInterviews[0] == i;
      case Scheduled => assert AllInterviews[1] == i;
      case NoInterview => assert AllInterviews[2] == i;
    }
    var sa := set a | a in AllAssessments;
    assert sa == {Pending, Passed, NotPassed, NotApplicable};
    var sr := set r | r in AllResponses;
    assert sr == {Waiting, GotAssessment, GotInterview, Rejection, NoResponse};
    var si := set i | i in AllInterviews;
    assert si == {NotYet, Scheduled, NoInterview};
  }

  /** `response` never holds a boolean, so `response === true` and
      `response === false` are false for every record. */
  lemma ResponseNeverBoolean(r: Response)
    ensures ResponseValue(r) != JsBool(true)
    ensures ResponseValue(r) != JsBool(false)
    ensures Truthy(ResponseValue(r)) <==> r != Waiting
  {
  }
}
