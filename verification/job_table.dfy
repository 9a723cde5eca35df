/** The pure rules inside the job table's handlers and conditions: the patch a
    response change produces, the string encodings of the status selects, the
    column and timeline visibility conditions, the header label and the
    date-edit patches. Rendering itself is not modelled. */
module JobTable {
  import opened JobTypes
  import Dashboard

  // ---------------------------------------------------------------------------
  // Response select

  /** The response select's items. */
  const ResponseItems: seq<string> := ["waiting", "assessment", "interview", "rejection", "no_response"]

  /** `job.response || 'waiting'`: the value the response select shows. */
  function ResponseSelectValue(r: Response): string {
    if Truthy(ResponseValue(r)) then ResponseTag(r) else "waiting"
  }

  /** The response a selected item stands for; `None` for a string that is not
      one of the select's items (the widget never delivers one). */
  function ResponseOfSelect(v: string): Option<Response> {
    if v == "waiting" then Some(Waiting)
    else if v == "assessment" then Some(GotAssessment)
    else if v == "interview" then Some(GotInterview)
    else if v == "rejection" then Some(Rejection)
    else if v == "no_response" then Some(NoResponse)
    else None
  }

  /** The response select shows one of its items for every record, and an item
      is decoded to a response exactly when it is the item shown for it. */
  lemma ResponseSelectRoundTrip(r: Response, v: string)
    ensures ResponseSelectValue(r) in ResponseItems
    ensures ResponseOfSelect(ResponseSelectValue(r)) == Some(r)
    ensures ResponseOfSelect(v) == Some(r) <==> v == ResponseSelectValue(r)
    ensures ResponseOfSelect(v).Some? <==> v in ResponseItems
  {
  }

  /** The patch the response select issues: the new response, and for a
      rejection or no response also the decision "Rejected". */
  function ResponseChangePatch(choice: Response): (p: Patch)
    ensures p.response == Some(choice)
    ensures p.decision.Some? <==> choice == Rejection || choice == NoResponse
    ensures p.decision.Some? ==> p.decision.value == "Rejected"
    ensures p.(response := None, decision := None) == EmptyPatch
  {
    var updates := EmptyPatch.(response := Some(choice));
    if choice == Rejection || choice == NoResponse then updates.(decision := Some("Rejected"))
    else updates
  }

  /** Selecting an item: the patch for the response it stands for. */
  function OnResponseSelected(v: string): (p: Option<Patch>)
    ensures p.Some? <==> v in ResponseItems
    ensures v == "waiting" ==> p == Some(EmptyPatch.(response := Some(Waiting)))
  {
    match ResponseOfSelect(v)
    case Some(choice) => Some(ResponseChangePatch(choice))
    case None => None
  }

  /** What a response change does to a record: the response is the chosen one,
      the decision becomes "Rejected" for a rejection or no response and is kept
      otherwise, and every other field is kept. */
  lemma ResponseChangeEffect(j: Job, choice: Response)
    ensures Dashboard.Merge(j, ResponseChangePatch(choice)).response == choice
    ensures Dashboard.Merge(j, ResponseChangePatch(choice)).decision ==
      (if choice == Rejection || choice == NoResponse then "Rejected" else j.decision)
    ensures var m := Dashboard.Merge(j, ResponseChangePatch(choice));
      m.id == j.id && FormOf(m) == FormOf(j) && m.assessment == j.assessment
      && m.interview == j.interview && m.responseDate == j.responseDate
  {
  }

  // ---------------------------------------------------------------------------
  // Assessment, interview and decision selects

  /** `assessment === null ? 'null' : assessment === 'n/a' ? 'n/a' : assessment.toString()` */
  function AssessmentSelectValue(a: Assessment): string {
    match AssessmentValue(a)
    case JsNull => "null"
    case JsString(s) => s
    case JsBool(b) => if b then "true" else "false"
  }

  /** `'null'` is pending, `'n/a'` is not applicable, and otherwise the value is
      passed exactly when it is `'true'`. */
  function AssessmentOfSelect(v: string): Assessment {
    if v == "null" then Pending
    else if v == "n/a" then NotApplicable
    else if v == "true" then Passed
    else NotPassed
  }

  /** Decoding the shown value gives back every assessment state, and the four
      shown values are the only strings that decode to anything but "not
      passed" besides "false" itself. */
  lemma AssessmentSelectRoundTrip(a: Assessment, v: string)
    ensures AssessmentOfSelect(AssessmentSelectValue(a)) == a
    ensures AssessmentSelectValue(a) in ["null", "true", "false", "n/a"]
    ensures v !in ["null", "true", "n/a"] ==> AssessmentOfSelect(v) == NotPassed
  {
  }

  /** `interview === null ? 'null' : interview.toString()` */
  function InterviewSelectValue(i: Interview): string {
    match InterviewValue(i)
    case JsNull => "null"
    case JsString(s) => s
    case JsBool(b) => if b then "true" else "false"
  }

  /** `value === 'null' ? null : value === 'true'` */
  function InterviewOfSelect(v: string): Interview {
    if v == "null" then NotYet else if v == "true" then Scheduled else NoInterview
  }

  lemma InterviewSelectRoundTrip(i: Interview, v: string)
    ensures InterviewOfSelect(InterviewSelectValue(i)) == i
    ensures InterviewSelectValue(i) in ["null", "true", "false"]
    ensures v !in ["null", "true"] ==> InterviewOfSelect(v) == NoInterview
  {
  }

  /** `job.decision || 'pending'` */
  function DecisionSelectValue(d: string): string {
    if d == "" then "pending" else d
  }

  /** `value === 'pending' ? '' : value` */
  function DecisionOfSelect(v: string): string {
    if v == "pending" then "" else v
  }

  /** The decision select returns every decision unchanged except the literal
      text "pending", which comes back as the empty (pending) decision; and a
      selected value survives being shown again unless it is empty. */
  lemma DecisionSelectRoundTrip(d: string, v: string)
    ensures DecisionOfSelect(DecisionSelectValue(d)) == (if d == "pending" then "" else d)
    ensures DecisionOfSelect(DecisionSelectValue(d)) == d <==> d != "pending"
    ensures DecisionSelectValue(DecisionOfSelect(v)) == v <==> v != ""
  {
  }

  // ---------------------------------------------------------------------------
  // Columns

  /** Whether some record of the list satisfies `p`. */
  function Any(jobs: seq<Job>, p: Job -> bool): (b: bool)
    ensures b <==> exists i :: 0 <= i < |jobs| && p(jobs[i])
  {
    if jobs == [] then false
    else
      assert forall i :: 1 <= i < |jobs| ==> jobs[i] == jobs[1..][i - 1];
      p(jobs[0]) || Any(jobs[1..], p)
  }

  predicate WantsAssessmentColumn(j: Job) { ResponseValue(j.response) == JsString("assessment") }

  predicate WantsInterviewColumn(j: Job) {
    || ResponseValue(j.response) == JsString("interview")
    || AssessmentValue(j.assessment) == JsBool(true)
    || AssessmentValue(j.assessment) == JsString("n/a")
  }

  predicate WantsStatusColumn(j: Job) {
    || InterviewValue(j.interview) == JsBool(true)
    || ResponseValue(j.response) == JsString("rejection")
    || (ResponseValue(j.response) == JsString("interview") && InterviewValue(j.interview) == JsBool(false))
  }

  function ShouldShowAssessmentColumn(jobs: seq<Job>): (b: bool)
    ensures b <==> exists i :: 0 <= i < |jobs| && jobs[i].response == GotAssessment
  {
    Any(jobs, WantsAssessmentColumn)
  }

  function ShouldShowInterviewColumn(jobs: seq<Job>): (b: bool)
    ensures b <==> exists i :: (0 <= i < |jobs| &&
      (jobs[i].response == GotInterview || jobs[i].assessment in {Passed, NotApplicable}))
  {
    Any(jobs, WantsInterviewColumn)
  }

  function ShouldShowStatusColumn(jobs: seq<Job>): (b: bool)
    ensures b <==> exists i :: (0 <= i < |jobs| &&
      (jobs[i].interview == Scheduled || jobs[i].response == Rejection
       || (jobs[i].response == GotInterview && jobs[i].interview == NoInterview)))
  {
    Any(jobs, WantsStatusColumn)
  }

  /** The three optional columns are switched off by constants. */
  const ShowAssessmentColumn := false
  const ShowInterviewColumn := false
  const ShowStatusColumn := false

  /** The desktop table's column headings. */
  function DesktopColumns(jobs: seq<Job>): seq<string> {
    ["Position", "Company", "Applied", "Response Type"]
      + (if ShowAssessmentColumn then ["Assessment"] else [])
      + (if ShowInterviewColumn then ["Interview"] else [])
      + (if ShowStatusColumn then ["Status"] else [])
      + ["Actions"]
  }

  /** No column is wanted for an empty list, and whatever the list wants, the
      table always has the same five columns and none of the optional ones. */
  lemma ColumnVisibility(jobs: seq<Job>)
    ensures jobs == [] ==>
      !ShouldShowAssessmentColumn(jobs) && !ShouldShowInterviewColumn(jobs) && !ShouldShowStatusColumn(jobs)
    ensures DesktopColumns(jobs) == ["Position", "Company", "Applied", "Response Type", "Actions"]
    ensures "Assessment" !in DesktopColumns(jobs) && "Interview" !in DesktopColumns(jobs)
      && "Status" !in DesktopColumns(jobs)
  {
  }

  /** Wanting a column is preserved when records are added to the list,
      before it, after it, or both. */
  lemma {:induction false} ColumnsMonotone(before: seq<Job>, a: seq<Job>, after: seq<Job>)
    ensures ShouldShowAssessmentColumn(a) ==> ShouldShowAssessmentColumn(before + a + after)
    ensures ShouldShowInterviewColumn(a) ==> ShouldShowInterviewColumn(before + a + after)
    ensures ShouldShowStatusColumn(a) ==> ShouldShowStatusColumn(before + a + after)
  {
    var all := before + a + after;
    forall i | 0 <= i < |a| ensures all[|before| + i] == a[i] {
      assert all == before + (a + after);
    }
    if ShouldShowAssessmentColumn(a) {
      var i :| 0 <= i < |a| && a[i].response == GotAssessment;
      assert all[|before| + i] == a[i];
    }
    if ShouldShowInterviewColumn(a) {
      var i :| 0 <= i < |a| &&
        (a[i].response == GotInterview || a[i].assessment in {Passed, NotApplicable});
      assert all[|before| + i] == a[i];
    }
    if ShouldShowStatusColumn(a) {
      var i :| 0 <= i < |a| &&
        (a[i].interview == Scheduled || a[i].response == Rejection
         || (a[i].response == GotInterview && a[i].interview == NoInterview));
      assert all[|before| + i] == a[i];
    }
  }

  // ---------------------------------------------------------------------------
  // Filters and the header label

  datatype FilterState = FilterState(response: string, decision: string, assessment: string, interview: string)

  /** `Object.values(filters)`, in declaration order. */
  function FilterValues(f: FilterState): seq<string> {
    [f.response, f.decision, f.assessment, f.interview]
  }

  /** `Object.values(filters).some(value => value !== 'all')` */
  function FilterActive(f: FilterState): (b: bool)
    ensures b <==> !(f.response == "all" && f.decision == "all" && f.assessment == "all" && f.interview == "all")
  {
    var vs := FilterValues(f);
    assert vs[0] == f.response && vs[1] == f.decision && vs[2] == f.assessment && vs[3] == f.interview;
    exists i :: 0 <= i < |vs| && vs[i] != "all"
  }

  /** The header's description line, before it is turned into text. An empty
      list takes the early return, whose header says nothing is tracked yet. */
  datatype Label = Empty | Shown(shown: nat, total: nat) | Tracked(count: nat)

  /** The header for a list of `shown` records: the early return when the list
      is empty, else `totalJobsCount && filters && <some filter active>`, where
      an absent or zero total is falsy. */
  function HeaderLabel(shown: nat, total: Option<nat>, filters: Option<FilterState>): (l: Label)
    ensures l.Empty? <==> shown == 0
    ensures l.Shown? <==> (shown != 0 && total.Some? && total.value != 0 && filters.Some?
                           && filters.value != FilterState("all", "all", "all", "all"))
    ensures l.Shown? ==> l.shown == shown && l.total == total.value
    ensures l.Tracked? ==> l.count == shown
  {
    if shown == 0 then Empty
    else if total.Some? && total.value != 0 && filters.Some? && FilterActive(filters.value)
    then Shown(shown, total.value)
    else Tracked(shown)
  }

  /** The filter block renders for a nonempty list when both the filter state
      and a filter-change handler are given. */
  function FilterControlsShown(listLength: nat, filters: Option<FilterState>, hasFilterChange: bool): (b: bool)
    ensures b <==> listLength != 0 && filters.Some? && hasFilterChange
  {
    if listLength == 0 then false else filters.Some? && hasFilterChange
  }

  /** The "Clear Filters" button sits inside the filter block and shows when
      some filter is active and a clear handler is given. */
  function ClearFiltersShown(listLength: nat, filters: Option<FilterState>, hasFilterChange: bool,
                             hasClearHandler: bool): (b: bool)
    ensures b <==> (listLength != 0 && filters.Some? && hasFilterChange && hasClearHandler
                    && filters.value != FilterState("all", "all", "all", "all"))
    ensures b ==> FilterControlsShown(listLength, filters, hasFilterChange)
  {
    FilterControlsShown(listLength, filters, hasFilterChange) && FilterActive(filters.value) && hasClearHandler
  }

  function DigitChar(d: nat): (c: char)
    requires d < 10
    ensures '0' <= c <= '9'
  {
    ['0', '1', '2', '3', '4', '5', '6', '7', '8', '9'][d]
  }

  /** Decimal text of a count, as template interpolation writes it. */
  function NatToString(n: nat): (s: string)
    ensures |s| >= 1
    ensures forall i :: 0 <= i < |s| ==> '0' <= s[i] <= '9'
  {
    if n < 10 then [DigitChar(n)] else NatToString(n / 10) + [DigitChar(n % 10)]
  }

  function PluralSuffix(n: nat): string {
    if n != 1 then "s" else ""
  }

  /** `${shown} of ${total} application${total !== 1 ? 's' : ''} shown` or
      `${count} application${count !== 1 ? 's' : ''} tracked`. */
  function LabelText(l: Label): string {
    match l
    case Empty => "No applications tracked yet"
    case Shown(shown, total) =>
      NatToString(shown) + " of " + NatToString(total) + " application" + PluralSuffix(total) + " shown"
    case Tracked(count) =>
      NatToString(count) + " application" + PluralSuffix(count) + " tracked"
  }

  lemma SuffixOfConcat(a: string, b: string)
    ensures (a + b)[|a + b| - |b|..] == b
  {
  }

  /** The "shown" label ends in the plural noun exactly when the total is not 1. */
  lemma ShownLabelEnds(shown: nat, total: nat)
    ensures var t := LabelText(Shown(shown, total));
      t[|t| - 18..] == "applications shown" <==> total != 1
  {
    var t := LabelText(Shown(shown, total));
    var prefix := NatToString(shown) + " of " + NatToString(total);
    if total != 1 {
      assert t == (prefix + " ") + "applications shown";
      SuffixOfConcat(prefix + " ", "applications shown");
    } else {
      assert t == prefix + " application shown";
      SuffixOfConcat(prefix, " application shown");
      assert " application shown" != "applications shown";
    }
  }

  /** The "tracked" label ends in the plural noun exactly when the count is not 1. */
  lemma TrackedLabelEnds(count: nat)
    ensures var t := LabelText(Tracked(count));
      t[|t| - 20..] == "applications tracked" <==> count != 1
  {
    var t := LabelText(Tracked(count));
    var prefix := NatToString(count);
    if count != 1 {
      assert t == (prefix + " ") + "applications tracked";
      SuffixOfConcat(prefix + " ", "applications tracked");
    } else {
      assert t == prefix + " application tracked";
      SuffixOfConcat(prefix, " application tracked");
      assert " application tracked" != "applications tracked";
    }
  }

  /** The label's noun is plural exactly when the count it follows is not 1. */
  lemma LabelTextEnds(l: Label)
    ensures l.Shown? ==>
      (LabelText(l)[|LabelText(l)| - 18..] == "applications shown" <==> l.total != 1)
    ensures l.Tracked? ==>
      (LabelText(l)[|LabelText(l)| - 20..] == "applications tracked" <==> l.count != 1)
  {
    match l
    case Empty =>
    case Shown(shown, total) => ShownLabelEnds(shown, total);
    case Tracked(count) => TrackedLabelEnds(count);
  }

  /** The header reads "No applications tracked yet" exactly for an empty
      list: every other label starts with the decimal count. */
  lemma {:induction false} HeaderLabelText(shown: nat, total: Option<nat>, filters: Option<FilterState>)
    ensures LabelText(HeaderLabel(shown, total, filters)) == "No applications tracked yet" <==> shown == 0
  {
    var l := HeaderLabel(shown, total, filters);
    if shown != 0 {
      var digits := if l.Shown? then NatToString(l.shown) else NatToString(l.count);
      assert LabelText(l)[0] == digits[0];
      assert '0' <= digits[0] <= '9';
    }
  }

  // ---------------------------------------------------------------------------
  // Response badge and timeline

  datatype BadgeStyle = Outline | Blue | Purple | Destructive

  datatype Badge = Badge(text: string, style: BadgeStyle)

  /** `getResponseBadge`. */
  function ResponseBadge(r: Response): Badge {
    match r
    case Waiting => Badge("Waiting", Outline)
    case GotAssessment => Badge("Assessment", Blue)
    case GotInterview => Badge("Interview", Purple)
    case Rejection => Badge("Rejected", Destructive)
    case NoResponse => Badge("No Response", Destructive)
  }

  /** The badge tells every response apart, and is destructive exactly for the
      two terminal responses. */
  lemma ResponseBadgeFacts(r: Response, r': Response)
    ensures ResponseBadge(r) == ResponseBadge(r') ==> r == r'
    ensures ResponseBadge(r).style == Destructive <==> r == Rejection || r == NoResponse
  {
  }

  /** The heading of the timeline's response step. No heading is written for
      "no response": the source lists the other four cases only. */
  function ResponseStepHeading(r: Response): (h: string)
    ensures h == "" <==> r == NoResponse
  {
    if r == GotAssessment then "Assessment Requested"
    else if r == GotInterview then "Interview Scheduled"
    else if r == Rejection then "Application Rejected"
    else if !Truthy(ResponseValue(r)) then "Awaiting Response"
    else ""
  }

  function ShowAssessmentStep(j: Job): (b: bool)
    ensures b <==> j.response == GotAssessment || j.assessment != Pending
  {
    ResponseValue(j.response) == JsString("assessment") || AssessmentValue(j.assessment) != JsNull
  }

  function ShowInterviewStep(j: Job): (b: bool)
    ensures b <==> j.response == GotInterview || j.assessment == Passed
                   || j.assessment == NotApplicable || j.interview != NotYet
  {
    || ResponseValue(j.response) == JsString("interview")
    || AssessmentValue(j.assessment) == JsBool(true)
    || AssessmentValue(j.assessment) == JsString("n/a")
    || InterviewValue(j.interview) != JsNull
  }

  function ShowDecisionStep(j: Job): (b: bool)
    ensures b <==> j.interview == Scheduled || j.response == Rejection || j.decision != ""
  {
    || InterviewValue(j.interview) == JsBool(true)
    || ResponseValue(j.response) == JsString("rejection")
    || Truthy(JsString(j.decision))
  }

  /** Choosing a response reveals the timeline step it leads to: an assessment
      shows the assessment step, an interview the interview step, and a
      rejection or no response the decision step. A new record shows none. */
  lemma TimelineAfterResponseChange(j: Job, choice: Response, f: FormData, id: string)
    ensures var m := Dashboard.Merge(j, ResponseChangePatch(choice));
      && (choice == GotAssessment ==> ShowAssessmentStep(m))
      && (choice == GotInterview ==> ShowInterviewStep(m))
      && (choice == Rejection || choice == NoResponse ==> ShowDecisionStep(m))
    ensures var n := Dashboard.NewJob(f, id);
      !ShowAssessmentStep(n) && !ShowInterviewStep(n) && !ShowDecisionStep(n)
  {
    ResponseChangeEffect(j, choice);
  }

  // ---------------------------------------------------------------------------
  // Dates

  datatype DateField = AppliedDateField | ResponseDateField

  /** The date-edit dialog: a nonempty date issues a patch of that one field; an
      empty one issues nothing. */
  function DateEditPatch(field: DateField, newDate: string): (p: Option<Patch>)
    ensures p.Some? <==> newDate != ""
  {
    if newDate == "" then None
    else match field
      case AppliedDateField => Some(EmptyPatch.(appliedDate := Some(newDate)))
      case ResponseDateField => Some(EmptyPatch.(responseDate := Some(Some(newDate))))
  }

  /** A date edit sets the edited field to the new date and leaves every other
      field of the record as it was. */
  lemma DateEditEffect(j: Job, field: DateField, newDate: string)
    requires newDate != ""
    ensures var m := Dashboard.Merge(j, DateEditPatch(field, newDate).value);
      match field
      case AppliedDateField => m == j.(appliedDate := newDate)
      case ResponseDateField => m == j.(responseDate := Some(newDate))
  {
  }

  /** The inline response-date input: every change issues a patch, clearing
      the date (`null`) when the input is emptied. */
  function ResponseDateInputPatch(v: string): (p: Patch)
    ensures p.(responseDate := None) == EmptyPatch
    ensures p.responseDate == Some(if v == "" then None else Some(v))
  {
    EmptyPatch.(responseDate := Some(if v == "" then None else Some(v)))
  }

  predicate ResponseDateTruthy(j: Job) {
    j.responseDate.Some? && j.responseDate.value != ""
  }

  /** `job.response && job.responseDate`: the response date is displayed. */
  function ShowResponseDate(j: Job): (b: bool)
    ensures b <==> j.response != Waiting && ResponseDateTruthy(j)
  {
    Truthy(ResponseValue(j.response)) && ResponseDateTruthy(j)
  }

  /** `job.response && job.response !== 'no_response' && !job.responseDate`:
      the inline date input is offered. */
  function ShowResponseDateInput(j: Job): (b: bool)
    ensures b <==> j.response != Waiting && j.response != NoResponse && !ResponseDateTruthy(j)
  {
    Truthy(ResponseValue(j.response)) && ResponseValue(j.response) != JsString("no_response")
    && !ResponseDateTruthy(j)
  }

  /** The date display and the date input never show together; for an
      assessment, interview or rejection response exactly one of them shows;
      and entering a date through the input swaps the input for the display. */
  lemma ResponseDateWidgets(j: Job, v: string)
    ensures !(ShowResponseDate(j) && ShowResponseDateInput(j))
    ensures j.response in {GotAssessment, GotInterview, Rejection} ==>
      ShowResponseDate(j) != ShowResponseDateInput(j)
    ensures j.response == Waiting ==> !ShowResponseDate(j) && !ShowResponseDateInput(j)
    ensures ShowResponseDateInput(j) && v != "" ==>
      var m := Dashboard.Merge(j, ResponseDateInputPatch(v));
      ShowResponseDate(m) && !ShowResponseDateInput(m)
  {
  }
}
