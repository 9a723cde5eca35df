# Job-application tracker: record model and pipeline rules in Dafny

This project models the logic core of a personal job-application tracker. It
covers the following:

- The application record and its pipeline fields (`assessment`, `response`,
  `interview`, `decision`).
- The dashboard's session list of records: add, edit, update and delete. It
  also covers the migration applied to saved records on load and the summary
  counters.
- The pure rules inside the job table: the patch a response change issues, the
  string encodings of the status selects, the column and timeline-step
  conditions, the header label, and the date-edit patches. The assessment,
  interview and decision selects are modelled, but constants switch them off
  in the table as shipped (see "Left out").
- The 30-day staleness predicate `shouldMarkAsNoResponse`.
- The mapping between records and the documents of the `jobApplications`
  collection: the created document, the update data, the read mapping and the
  writes the local-storage migration issues.
- The three-way decision of the conditional authentication guard.

Modules, one per source file:

| module | file | models |
|---|---|---|
| `JobTypes` | `job_types.dfy` | `src/types/jobApplication.ts` |
| `Dashboard` | `dashboard.dfy` | `src/components/Dashboard.tsx` |
| `JobTable` | `job_table.dfy` | `src/components/JobTable.tsx` |
| `Utils` | `utils.dfy` | `shouldMarkAsNoResponse` in `src/lib/utils.ts` |
| `Firestore` | `firestore.dfy` | `src/lib/firestore.ts` |
| `AuthGuard` | `auth_guard.dfy` | `src/components/ConditionalAuthGuard.tsx` |

Representation choices:

- The JavaScript unions become enumerations:
  - `assessment` is `Pending | Passed | NotPassed | NotApplicable`.
  - `response` is `Waiting | GotAssessment | GotInterview | Rejection | NoResponse`, where `Waiting` is `null`.
  - `interview` is `NotYet | Scheduled | NoInterview`.
  - `decision` stays a free string.
- `JsScalar` gives the JavaScript value each enumeration stands for. The
  source's strict comparisons are stated through it exactly as written. That
  includes `response === true`, which never holds.
- A `Partial<JobApplication>` is a `Patch`, a record of `Option`s:
  - `None` is an absent (undefined) key.
  - For `responseDate`, `Some(None)` is a key explicitly set to `null`.
- Saved records (`StoredJob`) have `Option` fields for `assessment` and
  `interview`. A missing key is `None`.
- Dates used by the staleness rule are integer milliseconds, and the current
  time is a parameter.
- The timestamp converters of the document mapping are function parameters.
  The database calls become an operation log of `Add` and `Update` writes.

The counters follow the code as written:

- "Pending assessments" counts `assessment === null` whatever the response.
- "Awaiting interviews" counts `interview === null && assessment === true`.
- The "responses" counter tests `response === true`.

The local-storage migration, as written, creates two documents for every saved
record with pipeline data (`src/lib/firestore.ts:159-185`). The first is a plain
copy of the form fields, made for every record. The second is a copy that then
receives the pipeline fields. `Firestore.Migrate` and
`Firestore.MissingKeyDuplicates` model this duplicate as the code's behaviour.

## Model

| member | source | states |
|---|---|---|
| JobTypes.WithFormFrame | src/types/jobApplication.ts:15-21 | A record is its id, its five form fields and its pipeline fields. Overwriting the form fields sets exactly those five and keeps the id and the pipeline. |
| JobTypes.StateCounts | src/types/jobApplication.ts:8-11 | `assessment` has exactly four states, `response` five and `interview` three, each listed once and covering every value. |
| JobTypes.ScalarRoundTrip | src/types/jobApplication.ts:8-11 | The JavaScript value of every status state reads back as that state. A scalar reads back as a state only if it is that state's value. |
| JobTypes.ResponseNeverBoolean | src/types/jobApplication.ts:9 | `response` never holds `true` or `false`. It is truthy exactly when it is not `null` (waiting). |
| Dashboard.AddJob | src/components/Dashboard.tsx:52-74 | When not editing, one record is prepended: the given form fields, the given id and a fresh pipeline (`null`s and `""`), with the old list behind it. When editing, the length is kept, records with the edited id get the form fields with id and pipeline kept, all others are unchanged, and editing ends. |
| Dashboard.EditMatching | src/components/Dashboard.tsx:55-59 | Same length. Every id and pipeline is kept, matching records carry the new form fields, and non-matching records are unchanged. |
| Dashboard.EditJob | src/components/Dashboard.tsx:86-88 | Starting an edit records the job and leaves the list unchanged. |
| Dashboard.CancelEdit | src/components/Dashboard.tsx:90-92 | Cancelling clears the edited job and leaves the list unchanged. |
| Dashboard.MergeFields | src/components/Dashboard.tsx:82 | Each field of `{...job, ...updates}` is the patch's value when the key is present, else the record's own. The empty patch changes nothing, and merging twice equals merging once. |
| Dashboard.MergeThen | src/components/Dashboard.tsx:82 | Two successive merges equal one merge of the combined patch, in which later keys win. |
| Dashboard.UpdateMatching | src/components/Dashboard.tsx:81-83 | Same length and order. Matching records have the patch merged in, and the others are unchanged. |
| Dashboard.UpdateJob | src/components/Dashboard.tsx:80-84 | The update handler keeps the editing state and the length, merges into matching records and leaves the rest unchanged. |
| Dashboard.UpdateKeepsIds | src/components/Dashboard.tsx:80-84 | A patch without an id key keeps every record's id. |
| Dashboard.DeleteMatching | src/components/Dashboard.tsx:77 | The result is shorter by the number of records with the id, and no survivor has that id. |
| Dashboard.DeleteMembership | src/components/Dashboard.tsx:77 | A record survives delete exactly when it was in the list with a different id. |
| Dashboard.DeleteJob | src/components/Dashboard.tsx:76-78 | The delete handler keeps the editing state and exactly the records with another id. |
| Dashboard.DeleteSplits | src/components/Dashboard.tsx:77 | Delete works piecewise on concatenations, so survivors keep their relative order. |
| Dashboard.DeleteAbsent | src/components/Dashboard.tsx:77 | Deleting an id no record has leaves the list unchanged. |
| Dashboard.DeleteIdempotent | src/components/Dashboard.tsx:77 | Deleting the same id twice equals deleting it once. |
| Dashboard.AddThenDelete | src/components/Dashboard.tsx:61-78 | Adding a record under a fresh id and then deleting that id restores the list. |
| Dashboard.MigrateJob | src/components/Dashboard.tsx:31-35 | Only a missing `interview` or `assessment` becomes `null`. A present value and every other field pass through unchanged. |
| Dashboard.MigrateAll | src/components/Dashboard.tsx:31-35 | Migration maps every saved record, in order, and keeps the length. |
| Dashboard.Load | src/components/Dashboard.tsx:24-45 | The load effect alone: parsed saved data gives the migrated list. Absent or empty data gives the empty list, and the load effect does not touch storage. Data that fails to parse gives the empty list, and the load effect removes the saved data. |
| Dashboard.MountWrites | src/components/Dashboard.tsx:24-50 | On first mount the save effect writes `[]` right after the load effect, in every case, so malformed data's removal is overwritten. The last write is always the full-key form of the loaded list, and storage is removed only for malformed data. |
| Dashboard.MountThenReload | src/components/Dashboard.tsx:24-50 | After the first mount, loading again shows the same list and discards nothing. Malformed data ends up stored as `[]`. |
| Dashboard.SaveLoadRoundTrip | src/components/Dashboard.tsx:24-50 | Saving a list and loading it again returns the same list. |
| Dashboard.CountWhere | src/components/Dashboard.tsx:96-100 | A filter count is at most the list length. It is 0 exactly when no record matches and equals the length exactly when all match. |
| Dashboard.CountWhereAppend | src/components/Dashboard.tsx:96-100 | A filter count over a concatenation is the sum of its counts over the parts. Together with the one-record case, this fixes every counter's value. |
| Dashboard.Rate | src/components/Dashboard.tsx:101-104 | The rate is 0 for an empty list, so there is no division by zero. It lies between 0 and 100, is 0 exactly when the count is 0, and is 100 exactly when every record counts. |
| Dashboard.Summarize | src/components/Dashboard.tsx:95-104 | The total is the length and every counter is bounded by it. Rejected and offers are 0 exactly when no record has that decision. Awaiting response equals the total exactly when all records wait. Both rates are 0 on the empty list, and the interview rate is 0 exactly when no interview is scheduled. |
| Dashboard.SummaryRelations | src/components/Dashboard.tsx:229-268 | Awaiting interviews is at most assessments passed. Awaiting interviews plus scheduled interviews, rejected plus offers, and rejected plus active are each at most the length. |
| Dashboard.ResponseCountersAlwaysZero | src/components/Dashboard.tsx:99-102 | For every list of records of the declared type, the `response === true` counter is 0 and the response rate is 0. The `response === false` counter of line 262 is 0 as well. |
| Dashboard.NewJobSummary | src/components/Dashboard.tsx:63-71 | A single newly added record counts as one application, awaiting a response, with a pending assessment and active. It is counted nowhere else, and both rates are 0. |
| Dashboard.ResponsesCounterMissesResponse | src/components/Dashboard.tsx:99 | A one-record list with an interview response: the counter as written reports 0 responses, and the intended counter reports 1. |
| Dashboard.RespondedCount | src/components/Dashboard.tsx:99 | The intended response counter counts assessments, interviews and rejections. It is 0 exactly when every record waits or got no response, and equals the length exactly when every record has a response. |
| Dashboard.RespondedSplitsList | src/components/Dashboard.tsx:229 | Every record is counted exactly once across three counters: awaiting response (as written), responded (intended) and no response yet (intended). |
| Dashboard.CorrectedResponseRate | src/components/Dashboard.tsx:101-102 | The intended response rate is 0 exactly when every record waits or got no response, including the empty list. |
| Dashboard.NoResponseYetCount | src/components/Dashboard.tsx:260-262 | The intended "No Response Yet" counter is 0 exactly when no record is `no_response`, and equals the length exactly when all are. |
| Dashboard.NoResponseCounterMissesGhosted | src/components/Dashboard.tsx:262 | A one-record list whose record is `no_response`: the counter as written reports 0, the intended counter reports 1, and the intended response rate stays 0. |
| JobTable.ResponseSelectRoundTrip | src/components/JobTable.tsx:544-546 | The response select always shows one of its five items. Decoding the shown item returns the response, and an item decodes to a response exactly when it is the item shown for it. |
| JobTable.ResponseChangePatch | src/components/JobTable.tsx:546-551 | The patch always sets `response`. It sets `decision` to "Rejected" exactly for rejection and no response, and has no other key. |
| JobTable.OnResponseSelected | src/components/JobTable.tsx:303-311 | A patch is issued exactly for the select's items, and "waiting" issues `{response: null}` alone. |
| JobTable.ResponseChangeEffect | src/components/JobTable.tsx:543-552 | After the patch the record has the chosen response. Its decision is "Rejected" for rejection or no response and is kept otherwise. The id, form fields, assessment, interview and response date are kept. |
| JobTable.AssessmentSelectRoundTrip | src/components/JobTable.tsx:628-638 | Decoding the shown value returns each of the four assessment states. Any string other than "null", "true" and "n/a" decodes to not passed. |
| JobTable.InterviewSelectRoundTrip | src/components/JobTable.tsx:682-685 | Decoding the shown value returns each of the three interview states. Any string other than "null" and "true" decodes to no interview. |
| JobTable.DecisionSelectRoundTrip | src/components/JobTable.tsx:717-720 | Every decision returns unchanged except the literal "pending", which returns as "". A selected value survives being shown again exactly when it is nonempty. |
| JobTable.ShouldShowAssessmentColumn | src/components/JobTable.tsx:77-79 | True exactly when some record's response is 'assessment'. |
| JobTable.ShouldShowInterviewColumn | src/components/JobTable.tsx:81-87 | True exactly when some record has response 'interview' or assessment passed or 'n/a'. |
| JobTable.ShouldShowStatusColumn | src/components/JobTable.tsx:89-95 | True exactly when some record has a scheduled interview, a rejection, or an interview response with no interview. |
| JobTable.ColumnVisibility | src/components/JobTable.tsx:97-101 | No column is wanted for the empty list. Whatever the list, the table has the same five columns and never the assessment, interview or status column. |
| JobTable.ColumnsMonotone | src/components/JobTable.tsx:77-95 | Each of the three columns, once wanted, stays wanted when records are added before the list, after it, or both. |
| JobTable.FilterActive | src/components/JobTable.tsx:157 | Filters are active exactly when some filter value differs from 'all'. |
| JobTable.HeaderLabel | src/components/JobTable.tsx:121-160 | An empty list takes the early return, whose header says nothing is tracked yet. For a nonempty list the "X of Y shown" form appears exactly when the total is present and nonzero, filters are given and some filter is not 'all'. Otherwise the "tracked" form shows the list length. |
| JobTable.HeaderLabelText | src/components/JobTable.tsx:121-160 | The header reads "No applications tracked yet" exactly when the list is empty. |
| JobTable.LabelTextEnds | src/components/JobTable.tsx:158-159 | The noun is "applications" exactly when the count it follows is not 1. That count is the total in the shown form and the list length in the tracked form. |
| JobTable.FilterControlsShown | src/components/JobTable.tsx:171 | The filter block renders exactly when the list is nonempty and both the filter state and a filter-change handler are given. |
| JobTable.ClearFiltersShown | src/components/JobTable.tsx:171-173 | The clear button shows exactly when the list is nonempty, a filter state, a filter-change handler and a clear handler are given, and some filter is not 'all'. It shows only inside the filter block. |
| JobTable.ResponseBadgeFacts | src/components/JobTable.tsx:112-119 | The badge tells all five responses apart. It is destructive exactly for rejection and no response. |
| JobTable.ResponseStepHeading | src/components/JobTable.tsx:907-910 | The response step's heading is empty exactly for "no response", the one case the source does not list. |
| JobTable.ShowAssessmentStep | src/components/JobTable.tsx:924 | The assessment step shows exactly when the response is 'assessment' or the assessment is not pending. |
| JobTable.ShowInterviewStep | src/components/JobTable.tsx:965 | The interview step shows exactly when the response is 'interview', the assessment is passed or 'n/a', or the interview is not pending. |
| JobTable.ShowDecisionStep | src/components/JobTable.tsx:1001 | The decision step shows exactly when the interview is scheduled, the response is a rejection, or the decision is nonempty. |
| JobTable.TimelineAfterResponseChange | src/components/JobTable.tsx:924-1001 | Choosing assessment shows the assessment step, interview shows the interview step, and rejection or no response shows the decision step. A newly added record shows none of the three. |
| JobTable.DateEditPatch | src/components/JobTable.tsx:1160-1165 | The date dialog issues a patch exactly for a nonempty date. |
| JobTable.DateEditEffect | src/components/JobTable.tsx:1160-1165 | A date edit sets only the edited field, either applied or response date, and keeps the rest of the record. |
| JobTable.ResponseDateInputPatch | src/components/JobTable.tsx:618-620 | The inline input always patches only `responseDate`. An emptied input clears it to `null`. |
| JobTable.ShowResponseDate | src/components/JobTable.tsx:597 | The response date is displayed exactly when there is a response and a nonempty date. |
| JobTable.ShowResponseDateInput | src/components/JobTable.tsx:613 | The date input shows exactly when there is a response, it is not 'no_response', and no nonempty date is set. |
| JobTable.ResponseDateWidgets | src/components/JobTable.tsx:597-621 | The display and the input never show together, and neither shows while waiting. For assessment, interview or rejection exactly one of them shows. Entering a date through the input swaps it for the display. |
| Utils.ShouldMarkAsNoResponse | src/lib/utils.ts:14-21 | A response other than `null` gives false, and so does an unparseable applied date. Otherwise the result is true exactly when more than 2,592,000,000 ms (30 days) have elapsed. |
| Utils.StalenessBoundary | src/lib/utils.ts:21 | The comparison is strict: exactly 30 days elapsed is not stale, and one more millisecond is. |
| Utils.StalenessMonotone | src/lib/utils.ts:21 | A record that is stale at some time is stale at every later time. |
| Utils.FutureNeverStale | src/lib/utils.ts:21 | An applied date in the future is never stale. |
| AuthGuard.Decide | src/components/ConditionalAuthGuard.tsx:17-42 | Spinner exactly while loading. Otherwise the login screen shows exactly when no user is signed in and the path is none of '/', '/privacy-policy', '/terms-of-service'. In every other case the page shows. |
| AuthGuard.GuardFacts | src/components/ConditionalAuthGuard.tsx:32-42 | A signed-in user reaches every page once loading ends, and public pages open without a user. The check is exact, so '/privacy-policy/' without a user gets the login screen. |
| Firestore.StringToTimestamp | src/lib/firestore.ts:41-43 | `null` and the empty string become `null`. Any other text goes through the converter. |
| Firestore.TimestampToString | src/lib/firestore.ts:36-38 | `null` stays `null`, and a timestamp goes through the converter. |
| Firestore.ResponseDateRoundTrip | src/lib/firestore.ts:36-43 | A missing response date survives storing and reading. So does a nonempty one on which the converters agree. |
| Firestore.EmptyResponseDateIsLost | src/lib/firestore.ts:41-43 | An empty response date is stored as `null` and read back as missing. |
| Firestore.NewDocument | src/lib/firestore.ts:87-97 | The created document belongs to the given user, with both audit times set to now. |
| Firestore.CreateThenRead | src/lib/firestore.ts:87-97 | A created document reads back as exactly the record the dashboard's add builds: the form fields, `null` pipeline fields and an empty decision. |
| Firestore.ReadJob | src/lib/firestore.ts:57-71 | The id is the document id, and every domain field is copied verbatim. The response date is present exactly when stored. |
| Firestore.ReadAll | src/lib/firestore.ts:57-74 | One record per document, in query order. |
| Firestore.BuildUpdate | src/lib/firestore.ts:116-130 | `updatedAt` is always set. Every other key is present exactly when the patch defines it, explicit `null` included, with the response date converted. |
| Firestore.BuildUpdateFacts | src/lib/firestore.ts:116-130 | An empty patch writes only `updatedAt`. An explicit `null` response date is written as `null`. An id in the patch is never written. |
| Firestore.UpdateThenRead | src/lib/firestore.ts:116-132 | Writing a patch and reading the document back gives the record the dashboard gets by merging the same patch in memory. This requires that the patch keeps the id and any response date is nonempty with agreeing converters. |
| Firestore.EmptyDateUpdateDiverges | src/lib/firestore.ts:128 | Writing an empty response date stores `null`, so the document reads back without a date while the in-memory merge keeps "". |
| Firestore.Migrate | src/lib/firestore.ts:151-189 | Absent data returns without writes, and unparseable data fails. For n saved records of which k carry pipeline data, the writes are n + 2k with n + k adds. Every update writes the document created by the add just before it, which is the second copy. |
| Firestore.MigratedCopyReadsBack | src/lib/firestore.ts:170-184 | The updated second copy reads back as the dashboard's load migration of the saved record, under the new id. |
| Firestore.MissingKeyDuplicates | src/lib/firestore.ts:169 | A saved record whose present fields are all default is copied twice exactly when its `interview` key is missing or not `null`, because a missing key is `undefined` and not `null`. |

## Findings

| source | as written | input that shows it | evidently intended | confidence | as-written member | corrected member |
|---|---|---|---|---|---|---|
| src/components/Dashboard.tsx:99 | the "responses received" counter keeps records with `response === true`, which no record of the declared type has | one record whose response is 'interview': the counter and the response rate are 0 | count records whose response is an assessment, an interview or a rejection | medium; not executed | Dashboard.ResponsesCounterMissesResponse | Dashboard.RespondedCount |
| src/components/Dashboard.tsx:262 | the "No Response Yet" counter of the application-status panel keeps records with `response === false`, which no record of the declared type has | one record whose response is 'no_response': the counter is 0 | count records whose response is 'no_response', the value that means no answer came within a month | medium; not executed | Dashboard.NoResponseCounterMissesGhosted | Dashboard.NoResponseYetCount |

`Dashboard.ResponseCountersAlwaysZero` shows that both counters as written are 0 for
every list. This holds for records of the declared type. A saved record from an older
format whose `response` is a boolean would be loaded unchanged and counted, but such a
record is outside the model (see "Left out").
`Dashboard.Summarize` models the counters as written. `Dashboard.CorrectedResponseRate` is
the rate built on the corrected counter. `Dashboard.RespondedSplitsList` shows that the two
corrected counters and the awaiting-response counter split the list.

## Left out

- There is no stage classification, staleness patch or record validation in these files, so none is modelled.
- Dashboard.MountWrites: React's development-mode second run of effects is not modelled. In it, the load effect runs again after the first save wrote `"[]"`, parses that, and can replace the loaded list with `[]`.
- `shouldMarkAsNoResponse` has no caller in the files modelled. It is modelled on its own.
- Browser storage reads and writes, database calls and the async ordering of writes are left out. Only their data effect is modelled.
- Error rethrowing is left out. A failed database write mid-migration is not modelled, and the migration assumes every write succeeds.
- `deleteJobApplication` is a single database delete with no logic of its own, so it is not modelled.
- The user filter and `appliedDate` ordering of the read query run in the database. `ReadAll` takes the query result as given.
- `Date.now()` ids are the `newId` parameter, and `Timestamp.now()` is one `now` parameter for every write of a call.
- Date parsing and formatting are left out. `new Date(...)` parsing becomes the integer applied date, and the timestamp converters are parameters.
- Locale date formatting and the `toFixed(1)` rounding of rates are left out.
- Dashboard.Load: two kinds of saved record cannot be represented. The load passes both through unchanged, so the counters could count them.
  - A record missing a key other than `assessment` or `interview`, which the load passes on as undefined.
  - A record holding a value outside the declared unions, such as a boolean `response` from an older format.
- JobTable.OnResponseSelected: a string outside the select's items gives no patch. The source's type cast would pass it into the patch, but the widget never delivers one.
- The desktop and mobile layouts repeat the same handlers, which are modelled once.
- Rendering, styling, icons, the details modal's copy-to-clipboard and open-link actions are left out.
- JobTable.HeaderLabel: the only caller in these files (`src/components/Dashboard.tsx:282-287`) passes no total, filters or filter handlers. There the label is always the empty or "tracked" form, and the "shown" form, `JobTable.FilterControlsShown` and `JobTable.ClearFiltersShown` are unreachable. They are modelled for a caller that passes them. Applying the filter state to the list is not modelled.
- JobTable.AssessmentSelectRoundTrip, JobTable.InterviewSelectRoundTrip, JobTable.DecisionSelectRoundTrip: the three selects render only under the column flags that are hard-wired `false` (`src/components/JobTable.tsx:99-101`, gates at lines 353, 405, 444, 625, 679 and 714). These codecs model code that never renders as shipped.
- JobTable.DateEditPatch: models the date input's change handler. The dialog's Save button (`src/components/JobTable.tsx:1178-1184`) is not modelled. It reads the first date input in the whole document, which need not be the dialog's, and patches the edited field with that value when nonempty.
- `src/components/JobForm.tsx` only opens, resets and prefills the form. Its data effect is the add/edit handler.
- `src/components/smoothui/basic-dropdown/index.tsx`, `cn` in `src/lib/utils.ts`, and the static layout, privacy-policy and terms-of-service pages contain no modelled logic.
