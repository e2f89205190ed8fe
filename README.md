# Report requests, report cards and their pages, in Dafny

This project models the client side of an e-learning product. Learners there ask for a
downloadable report card, and instructors or administrators approve or reject those
requests. The model covers:

- **Normalisation.** Any JSON value the server sends is turned into a fully populated report
  request. Fields are read from ordered lists of alternative keys, and sentinels replace
  missing values. Collections are normalised too, and items with no identity are dropped.
- **The report card.** Analytics are grouped into one row per subject, with three term
  scores clamped to 0..100, a total and a grade. The card also carries the overall average and
  the feedback paragraph.
- **The report service.** It digs a request or a list of requests out of a response, picks the
  most recent request, and builds query strings. It probes alternative endpoints until one does
  not answer 404, reads the file name from a `Content-Disposition` header, and makes the
  status-code and content-type decisions of the approved-report download.
- **The decision rules.** A pending request takes the first decision and keeps it, and a
  learner may download only an approved report.
- **The instructor's request list.** It is sorted newest first. Only the decided row is merged
  after an approval or a rejection, and the page keeps per-status counts.
- **The request table.** It decides when Approve and Reject are disabled, which key each row
  gets, and what caption names the approver.
- **The learner's report page.** It derives the course and the class level, and decides which
  status is displayed, when the request and download buttons are enabled, the final feedback
  and the report id.
- **The quiz page.** It resolves question and option images, defaults a quiz record, checks
  that every question is answered, builds the payload, records progress, and handles the
  report request and download after a submission.
- **The auth service.** It reads the token and the user from a response and decides when to
  keep them in the session.
- **Route lists.** Routes are built from path lists and merged.

JavaScript's own semantics model the language the code relies on. They are in module `Js`:

- values and truthiness;
- `||` and `??`;
- property access;
- `trim` and `toUpperCase`;
- `String(number)` and `Number(string)` over exact decimals;
- `Math.round`;
- a code-point order standing in for `localeCompare`.

Types and entities:

- The shared records are in `ReportTypes`: a report request, a subject row, the status and role
  enumerations, and their names.
- Pure logic is written as datatypes, functions and lemmas.
- Loops in the source are written as methods with loop invariants, proved against the
  function that specifies them:
  - `resolveOptionImage`;
  - the key search in `pickString`;
  - the direct-score search;
  - the grouping map in `buildSubjectRows`;
  - `tryFallback`;
  - the download loop.
- `stringifyQuery` and the download query fill a parameter list in place; they are methods
  that build the list step by step and are proved to serialise it in the source's order.
- React pages and the auth session are classes. Their state hooks are fields.
- An `async` handler is split at its `await` into a `Begin…` method and a `Finish…` method.
  `Finish…` receives what the awaited call returned or threw.

Three behaviours of the code that are easy to assume otherwise:

- The endpoint probe moves on only after a 404. A 405 stops it like any other error.
- The decision call returns the normalised response, with no record synthesised in its place.
- The learner's request lookup returns the most recent request in the response, without
  filtering by student.

## Model

| member | source | states |
|---|---|---|
| Workflow.DownloadOnlyWhenApproved | tests/report-workflow.test.mjs:4-25 | a learner can download an approved request and cannot download a pending or a rejected one |
| Workflow.ApplyDecision | tests/report-workflow.test.mjs:6-16 | a decided request comes back unchanged; a pending one gets the decision, the actor's id, name and role and the timestamp; identity, course and creation fields never change; the result is never pending |
| Workflow.FirstDecisionWins | tests/report-workflow.test.mjs:7-16 | a second decision of any actor leaves a decided request exactly as the first decision left it |
| Workflow.InstructorApproves | tests/report-workflow.test.mjs:27-42 | an instructor approving a pending request yields an approved request naming the instructor and the INSTRUCTOR role, which the learner may download |
| Workflow.AdminCannotReopen | tests/report-workflow.test.mjs:44-58 | an administrator's rejection of an instructor-approved request leaves it approved by the instructor |
| RouteTypes.WithPaths | src/app/route.types.ts:10-11 | one route per path, in path order, each carrying the given component |
| RouteTypes.WithPathsPaths | src/app/route.types.ts:10-11 | reading the paths back from the routes gives the input paths; every route has the component; no paths give no routes |
| RouteTypes.MergeRoutes | src/app/route.types.ts:13-14 | no groups give no routes |
| RouteTypes.MergeLength | src/app/route.types.ts:13-14 | the merged list is as long as all groups together |
| RouteTypes.MergeAppend | src/app/route.types.ts:13-14 | merging two runs of groups is the concatenation of merging each, so merging keeps group order |
| RouteTypes.MergeMembers | src/app/route.types.ts:13-14 | a route is in the merge exactly when it is in some group |
| AuthApi.ExtractUser | src/features/auth/services/auth.api.ts:9-14 | the user is `data.user ?? body.user`, and is returned exactly when that value is an object |
| AuthApi.NestedUserFirst | src/features/auth/services/auth.api.ts:12 | an object under `data.user` wins over the top-level user |
| AuthApi.NestedNonObjectHides | src/features/auth/services/auth.api.ts:12-13 | a present `data.user` that is not an object yields no user, even when the top-level one is an object |
| AuthApi.FirstPresent | src/features/auth/services/auth.api.ts:19-25 | the first value that is neither null nor undefined, or a nullish value when all are nullish |
| AuthApi.ExtractToken | src/features/auth/services/auth.api.ts:16-27 | a token is returned exactly when the first present candidate is a non-empty string, and it is one of the candidates |
| AuthApi.TopLevelTokenFirst | src/features/auth/services/auth.api.ts:20 | a non-empty `body.token` is the token |
| AuthApi.NestedAccessToken | src/features/auth/services/auth.api.ts:19-22 | with both token fields absent, `data.accessToken` is the token |
| AuthApi.PresentBadTokenHides | src/features/auth/services/auth.api.ts:19-26 | a present `body.token` that is not a non-empty string yields no token, whatever the later fields hold |
| AuthApi.Session.StoreUser | src/features/auth/services/auth.api.ts:39-40 | the stored user is replaced only when one is extracted; the token is untouched |
| AuthApi.Session.SignedIn | src/features/auth/services/auth.api.ts:30-56 | login and register keep an extracted token and an extracted user, and leave each stored value alone otherwise |
| AuthApi.Session.Refreshed | src/features/auth/services/auth.api.ts:58-73 | me and updateMe keep only an extracted user; the token is untouched |
| AuthApi.Session.LoggedOut | src/features/auth/services/auth.api.ts:75-81 | logout clears token and user whether the call succeeded or threw |
| AuthApi.Session.AccountDeleted | src/features/auth/services/auth.api.ts:83-86 | deleting the account clears the session only after the call succeeded |
| RequestTable.ActionsEnabledExactly | src/components/ReportRequestTable.tsx:52-54 | Approve and Reject, which share one predicate, are enabled exactly for a pending row with an id that is not being worked on |
| RequestTable.DecidedRowsLocked | src/components/ReportRequestTable.tsx:82-89 | an approved or rejected row can never be acted on |
| RequestTable.ButtonLabel | src/components/ReportRequestTable.tsx:85-92 | the row being worked on shows "Working..." and is disabled; any other row shows its own label |
| RequestTable.IdlessRowReadsWorking | src/components/ReportRequestTable.tsx:53 | with the '' the requests page passes while idle, a row without an id is labelled "Working..." |
| RequestTable.RowKey | src/components/ReportRequestTable.tsx:56 | the key is the id, else the student id, a dash and the creation or update time |
| RequestTable.OrDate | src/components/ReportRequestTable.tsx:56 | a non-empty creation time wins; otherwise the update time as a template renders it |
| RequestTable.KeyWithoutId | src/components/ReportRequestTable.tsx:56 | a row without id and with a creation time is keyed by student id and creation time |
| RequestTable.FormatDate | src/components/ReportRequestTable.tsx:12-16 | a missing or empty date shows "N/A"; any other is formatted by the locale |
| RequestTable.ApproverCaption | src/components/ReportRequestTable.tsx:71-76 | a caption appears exactly when an approver name is set, and begins "By " and that name |
| RequestTable.CaptionRole | src/components/ReportRequestTable.tsx:71-76 | with a role, the caption names the approver, the role in parentheses and the update date, else the creation date |
| RequestTable.CaptionWithoutRole | src/components/ReportRequestTable.tsx:71-76 | without a role, the caption names only the approver and the date |
| RequestOrder.DateText | src/features/instructor/pages/InstructorReportRequestsPage.tsx:10-15 | a request is dated by its non-empty update time, else its non-empty creation time, else none |
| RequestOrder.SortByDate | src/features/instructor/pages/InstructorReportRequestsPage.tsx:10-15 | the sorted list is a permutation of its input |
| RequestOrder.Insert | src/features/instructor/pages/InstructorReportRequestsPage.tsx:10-15 | inserting adds exactly the one request to the multiset |
| RequestOrder.InsertNewestFirst | src/features/instructor/pages/InstructorReportRequestsPage.tsx:10-15 | inserting into a newest-first list keeps it newest first, with a tie going to the inserted request |
| RequestOrder.SortByDateNewestFirst | src/features/instructor/pages/InstructorReportRequestsPage.tsx:10-15 | the sorted list is ordered newest first |
| RequestOrder.FirstNewest | src/shared/services/report.api.ts:76-85 | the position of the first request of maximal time |
| RequestOrder.SortByDateHead | src/shared/services/report.api.ts:76-85 | the sort is stable at its head: the first sorted request is the first of the newest |
| RequestOrder.MostRecent | src/shared/services/report.api.ts:76-85 | none exactly for an empty list; otherwise a member of the list that no other request postdates, namely the first of the newest |
| InstructorRequests.Either | src/features/instructor/pages/InstructorReportRequestsPage.tsx:69-71 | the server's value when present, else the row's own |
| InstructorRequests.MergeRow | src/features/instructor/pages/InstructorReportRequestsPage.tsx:66-74 | the merged row keeps identity and course; its status is the server's unless that is pending, then the requested decision, so never pending; approver fields fall back to the old ones; update time is the server's or now; creation time the server's or the old one |
| InstructorRequests.UpdateRows | src/features/instructor/pages/InstructorReportRequestsPage.tsx:63-75 | same length and ids; rows with another id are unchanged; rows with the decided id are merged |
| InstructorRequests.UpdateKeepsOthers | src/features/instructor/pages/InstructorReportRequestsPage.tsx:63-64 | every request with another id occurs as often after the update as before |
| InstructorRequests.DecisionUpdate | src/features/instructor/pages/InstructorReportRequestsPage.tsx:61-77 | after a decision the list has the same length, is newest first, keeps every other request with its multiplicity, holds no pending row with the decided id and nothing new beyond that id |
| InstructorRequests.Count | src/features/instructor/pages/InstructorReportRequestsPage.tsx:86-91 | a status count never exceeds the number of rows |
| InstructorRequests.SummaryTotal | src/features/instructor/pages/InstructorReportRequestsPage.tsx:86-91 | the pending, approved and rejected counts sum to the number of rows |
| InstructorRequests.CountSort | src/features/instructor/pages/InstructorReportRequestsPage.tsx:10-15 | sorting changes no status count |
| InstructorRequests.DecisionPendingCount | src/features/instructor/pages/InstructorReportRequestsPage.tsx:61-91 | after a decision the pending count drops by exactly the pending rows that carried the decided id |
| InstructorRequests.RequestsPage.constructor | src/features/instructor/pages/InstructorReportRequestsPage.tsx:18-23 | the page starts loading with no rows, no error, no action, the ALL filter and no sync time |
| InstructorRequests.RequestsPage.SetFilter | src/features/instructor/pages/InstructorReportRequestsPage.tsx:22-53 | only the filter changes |
| InstructorRequests.RequestsPage.FinishLoad | src/features/instructor/pages/InstructorReportRequestsPage.tsx:28-41 | a load stores its requests newest first, clears the error and records the sync time; a failure keeps the rows and shows the error's message or the fixed text; loading ends either way |
| InstructorRequests.RequestsPage.BeginDecision | src/features/instructor/pages/InstructorReportRequestsPage.tsx:55-57 | the decided id is the action in flight and the error is cleared |
| InstructorRequests.RequestsPage.FinishDecision | src/features/instructor/pages/InstructorReportRequestsPage.tsx:58-83 | a success merges the decided row and re-sorts; a failure keeps the rows and shows its message; the action is reset either way |
| InstructorRequests.RequestsPage.Summary | src/features/instructor/pages/InstructorReportRequestsPage.tsx:86-91 | the page's three counts sum to its number of rows |
| ReportNormalize.GetString | src/shared/report/report.utils.ts:10-17 | a value is usable exactly when it is a non-blank string or a finite number; a string comes back trimmed, and every result is trimmed |
| ReportNormalize.PickString | src/shared/report/report.utils.ts:46-52 | a picked value is trimmed |
| ReportNormalize.FindString | src/shared/report/report.utils.ts:46-52 | the loop over the keys returns what the specifying function picks |
| ReportNormalize.FirstUsable | src/shared/report/report.utils.ts:46-52 | the position of the first key with a usable value, or the number of keys |
| ReportNormalize.PickStringFirstMatch | src/shared/report/report.utils.ts:46-52 | the value of the first key with a usable value is picked, or none when no key has one |
| ReportNormalize.PickStringNoneExactly | src/shared/report/report.utils.ts:46-52 | nothing is picked exactly when no key holds a usable value |
| ReportNormalize.PickStringAbsent | src/shared/report/report.utils.ts:46-52 | a record with none of the keys yields nothing |
| ReportNormalize.BuildName | src/shared/report/report.utils.ts:54-62 | an explicit name wins; a name is built exactly when a name, first name or last name is usable; the result is trimmed |
| ReportNormalize.JoinedBlank | src/shared/report/report.utils.ts:54-62 | first and last name joined by a space are blank exactly when both are empty |
| ReportNormalize.NormalizeRequestStatus | src/shared/report/report.utils.ts:35-38 | APPROVED or REJECTED come only from a usable value whose upper case is that name; otherwise, including absent values, PENDING |
| ReportNormalize.StatusNameRoundTrip | src/shared/report/report.utils.ts:35-38 | each status's own name normalises back to it |
| ReportNormalize.StatusIgnoresCase | src/shared/report/report.utils.ts:35-38 | a status name written in lower case normalises to that status |
| ReportNormalize.StatusIgnoresSpace | src/shared/report/report.utils.ts:35-38 | a status name surrounded by white space normalises to that status |
| ReportNormalize.NormalizeApproverRole | src/shared/report/report.utils.ts:40-44 | a role comes only from a usable value whose upper case is ADMIN or INSTRUCTOR, and those two always give their role |
| ReportNormalize.RoleNameRoundTrip | src/shared/report/report.utils.ts:40-44 | each role's own name normalises back to it |
| ReportNormalize.ResolveId | src/shared/report/report.utils.ts:82 | the id is empty or trimmed text |
| ReportNormalize.ResolveStudentId | src/shared/report/report.utils.ts:83-92 | the student id is empty or trimmed text, taken from the first source that yields one: the direct id keys, then `student`, `learner`, the object forms of `studentId` and `learnerId`, `user`, `requestedBy`, `createdBy`; "" when none does |
| ReportNormalize.ResolveStudentName | src/shared/report/report.utils.ts:93-103 | an explicit name field first; else the name built from the first person object (in the same order as the id sources) that yields one; else the resolved student id; else "Unknown Learner" |
| ReportNormalize.ResolveCourseId | src/shared/report/report.utils.ts:104-113 | the course id comes from the first source that yields one: course fields, the `course` object, the object form of `courseId`, lesson fields, the `lesson` object, the object form of `lessonId`, the quiz's lesson, the quiz's course; "" when none does |
| ReportNormalize.ResolveCourseName | src/shared/report/report.utils.ts:114-125 | the course name comes from the first source that yields one, in the course, lesson, quiz-lesson, quiz-course order with the quiz title last; else the course id; else "General Course" |
| ReportNormalize.ResolveApprovedBy | src/shared/report/report.utils.ts:126 | the approver id comes from the direct keys when they yield one, else from the `approver` object, else is absent; it is trimmed |
| ReportNormalize.ResolveApprovedByName | src/shared/report/report.utils.ts:127-129 | the approver name comes from the direct keys when they yield one, else from the `approver` object, else is absent; it is trimmed |
| ReportNormalize.NormalizeReportRequest | src/shared/report/report.utils.ts:64-155 | every field is in canonical form; without a name source the student name falls back to the student id and only then to "Unknown Learner", and the course name to the course id and then "General Course" |
| ReportNormalize.NormalizeCanonical | src/shared/report/report.utils.ts:64-155 | a canonical request written out as JSON normalises back to itself |
| ReportNormalize.NormalizeIdempotent | src/shared/report/report.utils.ts:64-155 | normalising the JSON of a normalised request changes nothing |
| ReportNormalize.ExplicitStudentNameWins | src/shared/report/report.utils.ts:94 | an explicit trimmed `studentName` is the student name |
| ReportNormalize.NormalizeIdOnly | src/shared/report/report.utils.ts:64-155 | a record holding at most an id normalises to the placeholder request with that id |
| ReportNormalize.NormalizeEmpty | src/shared/report/report.utils.ts:64-155 | a non-object or `{}` gives empty ids, the two sentinel names, PENDING, and no approver or times |
| ReportNormalize.KeepIdentified | src/shared/report/report.utils.ts:157-162 | keeps exactly the identified items, each as often as it occurs, and never more items than given |
| ReportNormalize.KeepIdentifiedSplits | src/shared/report/report.utils.ts:157-162 | the filter keeps the original order: filtering a concatenation gives the concatenation of the filters |
| ReportNormalize.KeepIdentifiedOne | src/shared/report/report.utils.ts:157-162 | a single request is kept exactly when it is identified |
| ReportNormalize.NormalizeRequestCollection | src/shared/report/report.utils.ts:157-162 | a non-array gives nothing; an array gives at most as many items, exactly the identified normalised ones, each as often as it occurs among them |
| ReportNormalize.CollectionKeepsOrder | src/shared/report/report.utils.ts:157-162 | normalising the array `a + b` gives the requests of `a` followed by those of `b` |
| ReportNormalize.CollectionOfOne | src/shared/report/report.utils.ts:157-162 | a one-item array gives its normalised item exactly when that item is identified, else nothing |
| ReportNormalize.CollectionMembers | src/shared/report/report.utils.ts:157-162 | a request is in the collection exactly when it is identified and normalises from some item |
| ReportNormalize.CollectionDropsPlaceholder | src/shared/report/report.utils.ts:157-162 | of a blank item and an id-only item, only the id-only request is kept |
| ReportCard.GetNumber | src/shared/report/report.utils.ts:19-26 | a number when the value is a finite number or a string that parses to one, none otherwise |
| ReportCard.AverageBounds | src/shared/report/report.utils.ts:28-31 | the mean of values within bounds is within the same bounds |
| ReportCard.ClampScore | src/shared/report/report.utils.ts:33 | an integer in 0..100: the rounded value when it lies there, else 0 or 100 |
| ReportCard.ClampKeepsScore | src/shared/report/report.utils.ts:33 | a whole score in 0..100 is kept |
| ReportCard.ClampMonotone | src/shared/report/report.utils.ts:33 | clamping preserves order |
| ReportCard.ResolveSubjectName | src/shared/report/report.utils.ts:164-166 | the first usable subject field, else the positional "Subject n" name; never empty |
| ReportCard.FirstNumber | src/shared/report/report.utils.ts:168-197 | the number under the first key that holds one; none exactly when no key holds a number |
| ReportCard.FindDirectScore | src/shared/report/report.utils.ts:168-197 | the loop over the score keys returns what the specifying function finds |
| ReportCard.ResolveBaseScore | src/shared/report/report.utils.ts:168-197 | the clamped direct score, else the clamped pass rate, else the clamped score rate, else 0; always in 0..100 |
| ReportCard.ResolveTermScores | src/shared/report/report.utils.ts:199-234 | explicit term fields are clamped and used; otherwise the synthesised terms ascend; every term is in 0..100 |
| ReportCard.SynthesisedTerms | src/shared/report/report.utils.ts:227-233 | without explicit terms and away from the bounds, the terms are base-4+drift, base+drift and base+4+drift with drift in -1..1 by position |
| ReportCard.GetGradeFromScore | src/shared/report/report.utils.ts:236-241 | A from 85, B from 70, C from 55, D below, each in both directions |
| ReportCard.GetPerformanceLevel | src/shared/report/report.utils.ts:243-248 | Excellent, Very Good, Good or Needs Improvement on the same thresholds, both directions |
| ReportCard.GradeAndLevelAgree | src/shared/report/report.utils.ts:236-248 | grade and level are chosen by one band |
| ReportCard.BandMonotone | src/shared/report/report.utils.ts:236-248 | a higher score never falls into a lower band |
| ReportCard.GradeBoundaries | src/shared/report/report.utils.ts:236-241 | 85 is A and 84 is B; 70 is B and 69 is C; 55 is C and 54 is D |
| ReportCard.AggregateRow | src/shared/report/report.utils.ts:250-267 | a row keeps its subject; each term is the clamped mean of that term over the entries; the total is the clamped mean of the three; the grade follows the total; everything is in 0..100 |
| ReportCard.AggregateWithinEntries | src/shared/report/report.utils.ts:250-267 | a row's first term lies within the bounds of its entries' first terms |
| ReportCard.SingleEntryRow | src/shared/report/report.utils.ts:250-267 | a subject with one entry shows that entry's terms |
| ReportCard.Aggregate | src/shared/report/report.utils.ts:250-267 | one row per group, in group order |
| ReportCard.SortBySubject | src/shared/report/report.utils.ts:288 | the sorted rows are a permutation of the input |
| ReportCard.SortBySubjectSorted | src/shared/report/report.utils.ts:288 | the sorted rows are ordered by subject name |
| ReportCard.MapAdd | src/shared/report/report.utils.ts:276-278 | appending an entry to the insertion-ordered map is adding it to the group list |
| ReportCard.MapSet | src/shared/report/report.utils.ts:284 | setting a subject in the insertion-ordered map is setting its group |
| ReportCard.FileEntries | src/shared/report/report.utils.ts:272-279 | the loop over the analytics leaves the map holding exactly the grouped entries |
| ReportCard.FileFallbacks | src/shared/report/report.utils.ts:281-286 | the loop over the fallback subjects leaves the map holding one zero entry per safe subject name |
| ReportCard.SafeSubject | src/shared/report/report.utils.ts:282-283 | a fallback subject name is never empty |
| ReportCard.BuildSubjectRows | src/shared/report/report.utils.ts:269-289 | the method with its map loops computes the rows the specifying function describes |
| ReportCard.SubjectRowsShape | src/shared/report/report.utils.ts:269-289 | one row per distinct subject, sorted by subject, every score in 0..100 and every grade matching its total |
| ReportCard.SubjectsFromAnalytics | src/shared/report/report.utils.ts:269-289 | with analytics, the subjects are exactly those the analytics name |
| ReportCard.GroupAllTerms | src/shared/report/report.utils.ts:272-279 | every group holds exactly the terms of the entries naming its subject, in entry order, and no others |
| ReportCard.TermsOfSingle | src/shared/report/report.utils.ts:272-279 | a subject only one entry names collects that entry's terms alone |
| ReportCard.SubjectRowsFromTerms | src/shared/report/report.utils.ts:250-289 | with analytics, each row is the aggregate of exactly the terms of the entries naming its subject |
| ReportCard.SingleEntrySubjectRow | src/shared/report/report.utils.ts:250-289 | a subject named by one analytics entry only gets a row showing that entry's three term scores |
| ReportCard.SubjectsFromFallbacks | src/shared/report/report.utils.ts:281-289 | with no analytics, the subjects are exactly the safe fallback names, all scored 0 and graded D |
| ReportCard.CalculateOverallAverage | src/shared/report/report.utils.ts:291-294 | in 0..100, and 0 with no subjects |
| ReportCard.OverallAverageBetween | src/shared/report/report.utils.ts:291-294 | the overall average lies within the bounds of the subject totals |
| ReportCard.Strongest | src/shared/report/report.utils.ts:301 | the first subject of maximal total |
| ReportCard.Weakest | src/shared/report/report.utils.ts:302 | the first subject of minimal total |
| ReportCard.BuildFeedbackComment | src/shared/report/report.utils.ts:296-314 | no subjects give the fixed no-data sentence; otherwise the comment opens "The learner " |
| ReportApi.FirstTruthy | src/shared/services/report.api.ts:39-51 | the first truthy candidate, else the last resort |
| ReportApi.PickRequestLikeObject | src/shared/services/report.api.ts:39-51 | the first truthy candidate among `data.request`, `data.reportRequest`, `data.report`, `request`, `reportRequest`, `report`; the payload itself when none is truthy |
| ReportApi.FirstCollection | src/shared/services/report.api.ts:53-74 | the normalised first candidate that yields a non-empty list, else nothing |
| ReportApi.GetRequestList | src/shared/services/report.api.ts:53-74 | every listed request is identified and canonical |
| ReportApi.FindRequestList | src/shared/services/report.api.ts:53-74 | the loop over the candidate collections returns what the specifying function finds |
| ReportApi.ExtractSingleRequest | src/shared/services/report.api.ts:87-93 | the most recent listed request; with an empty list, the request-like object only when it has an id or a student id; any result is identified and canonical |
| ReportApi.QueryText | src/shared/services/report.api.ts:95-101 | "" exactly without parameters, else "?" and the serialised parameters |
| ReportApi.StringifyQuery | src/shared/services/report.api.ts:95-101 | "" exactly when the status is absent or ALL and there is no course id; otherwise "?" with the status parameter, the course parameter, or both |
| ReportApi.TryFallback | src/shared/services/report.api.ts:103-116 | stops at the first success or non-404 failure and returns it, calling no later candidate; after only 404s, the last one; with no candidates, the no-endpoint error |
| ReportApi.RequestDownloadResult | src/shared/services/report.api.ts:141 | the extracted request, else the normalised request-like object |
| ReportApi.LearnerRequestResult | src/shared/services/report.api.ts:144-159 | a 404 means no request; any other failure is passed on; a success gives the extracted request |
| ReportApi.ListRequestsResult | src/shared/services/report.api.ts:161-172 | a failure is passed on; a response gives the request list extracted from it, whose requests are all identified |
| ReportApi.DecideRequestResult | src/shared/services/report.api.ts:174-188 | a failure is passed on; a response gives its request-like object, normalised, which is canonical |
| ReportApi.RunUntil | src/shared/services/report.api.ts:118-132 | the longest run from a position that avoids the stop character |
| ReportApi.Utf8Capture | src/shared/services/report.api.ts:118-132 | none exactly when no `filename*=UTF-8''` match follows; otherwise the greedy run of non-semicolon characters after the prefix of the leftmost match, which is non-empty |
| ReportApi.PlainCapture | src/shared/services/report.api.ts:118-132 | none exactly when no `filename=` match follows; otherwise the greedy run of non-quote characters at the leftmost match, past an opening quote, which is non-empty |
| ReportApi.StripQuotes | src/shared/services/report.api.ts:118-132 | no quote is left, and a quote-free name is kept as it is |
| ReportApi.StripQuotesSplits | src/shared/services/report.api.ts:123 | stripping works character by character and in order: a quote is dropped, any other character kept |
| ReportApi.ParseFileName | src/shared/services/report.api.ts:118-132 | no name for a missing or empty header; the decoded UTF-8 form, quotes stripped, is preferred; a failed decode throws; otherwise the plain form |
| ReportApi.QuotedPlainName | src/shared/services/report.api.ts:118-132 | a header with only `filename="name"` yields that name |
| ReportApi.ErrorMessage | src/shared/services/report.api.ts:219-226 | a JSON response's non-empty `message`, else its non-empty `error`, else the fixed text, which is also the message of a non-JSON response; never empty |
| ReportApi.DownloadStep | src/shared/services/report.api.ts:218-260 | 401 and 403 stop with an error; other failures move on; a failed decode stops; a non-JSON success is a blob; a JSON url is a url result; a JSON request that is not approved stops with a 403 naming its status; anything else moves on; every result has a file name |
| ReportApi.DownloadFileName | src/shared/services/report.api.ts:239-240 | a downloaded file takes the parsed name, else the default timestamped name |
| ReportApi.StepsOf | src/shared/services/report.api.ts:210-263 | one step per candidate, in order |
| ReportApi.Probe | src/shared/services/report.api.ts:210-263 | the result of the first stopping step, fetching nothing after it; else the last step's error, or the generic error with no candidates |
| ReportApi.DownloadApprovedReport | src/shared/services/report.api.ts:210-263 | the download loop over the candidate URLs with the response decisions above |
| ReportApi.DownloadCandidates | src/shared/services/report.api.ts:200-208 | the five candidate URLs, with the query attached where the code attaches it |
| ReportApi.DownloadQuery | src/shared/services/report.api.ts:195-200 | the `requestId`, `courseId` and `quizId` parameters, each only when non-empty, in that order; "" exactly when all three are empty |
| ReportApi.AllNotFound | src/shared/services/report.api.ts:210-263 | when every candidate answers 404, no step stops and the error kept is the last 404 |
| LearnerReport.ClassLevel | src/features/learner/pages/LearnerReportPage.tsx:30-34 | the user's class level, else level, else "Digital Learning Level 1"; never empty |
| LearnerReport.Names | src/features/learner/pages/LearnerReportPage.tsx:36-44 | the trimmed subject of each quiz, in quiz order |
| LearnerReport.Unique | src/features/learner/pages/LearnerReportPage.tsx:36-44 | exactly the non-empty names, each once, in order of first occurrence |
| LearnerReport.DeriveCourseFromQuizzes | src/features/learner/pages/LearnerReportPage.tsx:36-52 | the general course with no quizzes; otherwise the first quiz's lesson id and title, with fallbacks; the subjects are the unique names |
| LearnerReport.SubjectsOfQuizzes | src/features/learner/pages/LearnerReportPage.tsx:36-44 | the course's subjects are distinct, are exactly the non-empty quiz subjects, and keep first-occurrence order |
| LearnerReport.SubjectsTrimmed | src/features/learner/pages/LearnerReportPage.tsx:36-44 | every subject is non-empty and trimmed |
| LearnerReport.DisplayStatus | src/features/learner/pages/LearnerReportPage.tsx:113-114 | the request's status when one has been made, else PENDING |
| LearnerReport.CanDownloadExactly | src/features/learner/pages/LearnerReportPage.tsx:115 | downloading is allowed exactly for a request with an id or student id whose status allows a download |
| LearnerReport.RequestEnabledExactly | src/features/learner/pages/LearnerReportPage.tsx:308 | the request button is enabled exactly when not requesting and nothing was requested or it was rejected |
| LearnerReport.RequestButtonLabel | src/features/learner/pages/LearnerReportPage.tsx:311-317 | "Submitting...", "Request Download Again", "Request Submitted" or "Request Download", by state |
| LearnerReport.DownloadNeedsApproval | src/features/learner/pages/LearnerReportPage.tsx:322 | a request that is not approved never enables the download |
| LearnerReport.FinalFeedback | src/features/learner/pages/LearnerReportPage.tsx:112 | the trimmed manual comment when it is not blank, else the automatic feedback |
| LearnerReport.NoDataNoFeedback | src/features/learner/pages/LearnerReportPage.tsx:104-112 | with no analytics, no quizzes and a blank comment, the fixed no-data sentence is shown |
| LearnerReport.GeneratedAt | src/features/learner/pages/LearnerReportPage.tsx:116 | the request's update time, else its creation time, else now |
| LearnerReport.ReportId | src/features/learner/pages/LearnerReportPage.tsx:117 | the request id when it has one, else "TEMP-" followed by the upper-cased last six characters of the user's `_id`, else `id`, else "LEARNER" |
| LearnerReport.TempReportId | src/features/learner/pages/LearnerReportPage.tsx:117 | for an alphanumeric user id of six or more characters, the temporary id is "TEMP-" and the id's last six characters with lower-case letters capitalised |
| LearnerReport.AnonymousReportId | src/features/learner/pages/LearnerReportPage.tsx:117 | without a request id or a user id the report id is "TEMP-EARNER" |
| LearnerReport.SubmitBody | src/features/learner/pages/LearnerReportPage.tsx:124-128 | the request names the derived course and the class level |
| LearnerReport.DownloadRequestId | src/features/learner/pages/LearnerReportPage.tsx:144 | the download names the request's id exactly when there is a request |
| LearnerReport.SubmittedLocksRequest | src/features/learner/pages/LearnerReportPage.tsx:113-115 | after a pending request is returned, the request button is locked, labelled "Request Submitted", and the download is disabled |
| LearnerReport.LearnerReportPage.constructor | src/features/learner/pages/LearnerReportPage.tsx:55-64 | the page starts loading, empty, with the stored user |
| LearnerReport.LearnerReportPage.Loaded | src/features/learner/pages/LearnerReportPage.tsx:66-95 | the loaded analytics, quizzes, request and user are stored and loading ends |
| LearnerReport.LearnerReportPage.SetComment | src/features/learner/pages/LearnerReportPage.tsx:112 | only the manual comment changes |
| LearnerReport.LearnerReportPage.BeginRequest | src/features/learner/pages/LearnerReportPage.tsx:119-128 | the page sends the submit body and clears its messages |
| LearnerReport.LearnerReportPage.FinishRequest | src/features/learner/pages/LearnerReportPage.tsx:129-136 | a success stores the returned request and the submitted message; a failure shows its text |
| LearnerReport.LearnerReportPage.BeginDownload | src/features/learner/pages/LearnerReportPage.tsx:139-144 | the download asks for the request id and the derived course |
| LearnerReport.LearnerReportPage.FinishDownload | src/features/learner/pages/LearnerReportPage.tsx:159-165 | a success shows the downloaded message; a failure shows its text |
| QuizPage.GetImageUrl | src/features/learner/pages/QuizPage.tsx:43-52 | a string trimmed, an object's string `url` trimmed, otherwise "" |
| QuizPage.ImageIndex | src/features/learner/pages/QuizPage.tsx:54-63 | the position of the first value yielding an image, or the length |
| QuizPage.FirstImage | src/features/learner/pages/QuizPage.tsx:54-63 | the image of the first value yielding one, else "" |
| QuizPage.FirstImageEmpty | src/features/learner/pages/QuizPage.tsx:54-63 | no image exactly when no value yields one |
| QuizPage.ResolveQuestionImage | src/features/learner/pages/QuizPage.tsx:54-63 | the image of the first of image, imageUrl, imageURL, questionImage, media and imageData that yields one |
| QuizPage.ImageFieldFirst | src/features/learner/pages/QuizPage.tsx:56 | a question's own `image` wins |
| QuizPage.NoQuestionImage | src/features/learner/pages/QuizPage.tsx:54-63 | no image exactly when none of the six fields yields one |
| QuizPage.ResolveOptionImage | src/features/learner/pages/QuizPage.tsx:65-78 | the loop returns the first image among optionImages, optionImageUrls and optionMedia at the index, and "" exactly when none yields one |
| QuizPage.CreateActiveQuiz | src/features/learner/pages/QuizPage.tsx:80-87 | the id is `_id`, else `id`, else ""; the title defaults to "Untitled Quiz"; the lesson id is the lesson's `_id`, else its `id`, else the quiz id; the lesson title is the lesson's `title`, else its `name`, else "Lesson"; the passing score is the number of a truthy `passingScore`, else 0; the questions are the array given, else [] |
| QuizPage.EmptyQuizDefaults | src/features/learner/pages/QuizPage.tsx:80-87 | an empty record becomes the untitled quiz with no questions |
| QuizPage.CourseOf | src/features/learner/pages/QuizPage.tsx:202 | the lesson id, else the quiz id |
| QuizPage.Payload | src/features/learner/pages/QuizPage.tsx:168-170 | one answer per question, in question order |
| QuizPage.Record | src/features/learner/pages/QuizPage.tsx:179-182 | the quiz is marked done with its percentage, and every other entry is kept |
| QuizPage.Grade | src/features/learner/pages/QuizPage.tsx:172-175 | the score is the number of a truthy `score` field, else 0; a finite `percentage` gives its rounded value, a falsy one 0; `passed` is the truthiness of the `passed` field |
| QuizPage.ReadResult | src/features/learner/pages/QuizPage.tsx:172 | reading `res.data.result` throws exactly when the response's `data` is null or undefined, with a non-empty error message; otherwise it gives the `result` field |
| QuizPage.MessageOr | src/features/learner/pages/QuizPage.tsx:114 | a thrown error's non-empty message, else the fallback |
| QuizPage.RequestedStatus | src/features/learner/pages/QuizPage.tsx:205 | the request's status, PENDING when no request came back |
| QuizPage.RequestBody | src/features/learner/pages/QuizPage.tsx:198-204 | the body names the quiz twice, its title, its course and the lesson title |
| QuizPage.DownloadGate | src/features/learner/pages/QuizPage.tsx:476 | download is enabled exactly with feedback shown, no download running and an approved request; no request, or one without status, never enables it |
| QuizPage.FindQuiz | src/features/learner/pages/QuizPage.tsx:125 | none exactly when no quiz has the route's id; otherwise the first listed quiz with that id |
| QuizPage.QuizView.constructor | src/features/learner/pages/QuizPage.tsx:91-103 | the page starts with the stored progress and nothing else |
| QuizPage.QuizView.Loaded | src/features/learner/pages/QuizPage.tsx:105-121 | the loaded quizzes are stored, or the error's message shown |
| QuizPage.QuizView.OpenFromRoute | src/features/learner/pages/QuizPage.tsx:123-134 | the quiz the route names is opened with a clean slate; without one nothing changes |
| QuizPage.QuizView.Show | src/features/learner/pages/QuizPage.tsx:136-154 | opening or closing resets answers, result, feedback, report status, message and request id |
| QuizPage.QuizView.Choose | src/features/learner/pages/QuizPage.tsx:423 | only the chosen question's answer changes |
| QuizPage.QuizView.BeginSubmit | src/features/learner/pages/QuizPage.tsx:156-171 | no call without a quiz or with a missing answer, which shows the fixed message; otherwise the quiz id and payload are sent and the request-report button is disabled |
| QuizPage.QuizView.FinishSubmit | src/features/learner/pages/QuizPage.tsx:172-189 | a response with a `result` to read shows the score, sets showFeedback and records the progress; a thrown call shows its message; a response whose `data` is null or undefined shows the TypeError's message and changes neither showFeedback nor the progress; submitting ends either way, and the request-report button is enabled afterwards exactly when feedback is shown and no request is in flight |
| QuizPage.QuizView.BeginReportRequest | src/features/learner/pages/QuizPage.tsx:192-204 | with a quiz open, the request body is sent, the message cleared and the request-report button disabled |
| QuizPage.QuizView.FinishReportRequest | src/features/learner/pages/QuizPage.tsx:205-220 | a success stores status, id and the status's message; a failure shows its text; afterwards the request-report button is enabled exactly when feedback is shown and no submission is running |
| QuizPage.QuizView.BeginDownload | src/features/learner/pages/QuizPage.tsx:223-233 | with a quiz open, the request id, course and quiz are asked for |
| QuizPage.QuizView.FinishDownload | src/features/learner/pages/QuizPage.tsx:248-255 | a success shows the downloaded message; a failure shows its text |
| Js.ReadProperty | src/features/learner/pages/QuizPage.tsx:172 | a property read throws a TypeError with a non-empty message exactly on null or undefined, and otherwise gives the property's value |
| Js.Trim | src/shared/report/report.utils.ts:12 | the result is no longer, starts and ends with no white space, and is empty exactly for an all-white-space string |
| Js.TrimSlice | src/shared/report/report.utils.ts:12 | the result is a slice of the input with only white space before it and after it |
| Js.TrimOfTrimmed | src/shared/report/report.utils.ts:12 | trimming a trimmed string changes nothing |
| Js.ToUpperLetters | src/shared/report/report.utils.ts:36 | on letters, upper-casing shifts exactly the lower-case ones |
| Js.Round | src/shared/report/report.utils.ts:33 | `Math.round`: the integer within half of the input, halves going up |
| Js.RoundNum | src/features/learner/pages/QuizPage.tsx:174 | rounding a finite number gives the nearest whole number, halves upward; NaN and the infinities are returned unchanged |
| Js.ErrorText | src/features/learner/pages/QuizPage.tsx:216 | an Error's message, else the fallback |
| Js.StrLeTotal | src/shared/report/report.utils.ts:288 | the subject order relates any two names |
| Js.StrLeTransitive | src/shared/report/report.utils.ts:288 | the subject order is transitive |
| Js.StrLeAntisymmetric | src/shared/report/report.utils.ts:288 | names ordered both ways are equal |

## Left out

- Floating point: numbers are exact decimals and real arithmetic, so IEEE rounding in averages and the exponent forms of `String(number)` are not modelled.
- `Number()` of an object or an array is not modelled beyond yielding no finite number.
- `localeCompare` is modelled as code-point order on strings, because locale collation depends on the host.
- Dates: parsing, `toLocaleDateString`, `formatReportDate` and `getSchoolYearLabel` are abstract functions or left out, because they depend on the clock and the locale. Invalid dates (NaN times) are not modelled.
- The network: requests, the fetch calls of each endpoint and the base URLs are abstract outcomes passed to the methods. `URLSearchParams` encoding is an abstract `encode` function and `decodeURIComponent` an abstract `decode` function.
- DownloadApprovedReport: treats `fetch` as a function of the URL, so a URL that repeats among the candidates (with an empty query the third and fourth candidates coincide, and so do the second and fifth) answers alike each time it is tried; Probe, over an arbitrary sequence of steps, covers the general case where the answers differ.
- Timers and liveness: the 12-second polling of the instructor page and the `active`/`mounted` flags belong to asynchronous lifetime and are left out.
- Browser APIs: blob and object URLs, `window.open`, anchors and `localStorage` reads and writes (the stored quiz progress and the auth session storage) are left out; the session is a class with the two stored values.
- ToUpper: `toUpperCase` is modelled for ASCII letters and a listed set of other characters; every other non-ASCII character is kept unchanged.
- SliceLast: strings are sequences of code points, while JavaScript's `slice(-6)` in the report id counts UTF-16 code units, so ids with characters outside the Basic Multilingual Plane may differ.
- Thrown values other than `Error` objects are one case, `NonError`; `throw null` and `err?.message` on such values are not distinguished further.
- Js.ReadProperty: the TypeError's message follows V8's wording; other engines word it differently.
- TypeScript casts are taken at face value: a quiz list item or a user read from storage is a typed record.
- Null items in a quiz's question list are read like undefined ones.
- The quiz page's summary panel (QuizPage.tsx:257-266) and all rendering are left out.
- The approval section's default texts and the student and course id captions of the request table are display text with no rule and are left out.
- The pages call `api.reports`, which is not in the modelled sources; it is taken to be the report service modelled here.
- BuildFeedbackComment: states the no-data case and the shared opening, not which template each performance level selects.
- RequestedStatus: the `'PENDING'` fallback for a returned request is unreachable in the model, because a normalised request always has a status.
- Dashboards, charts, forms, routing tables, the duplicate core auth service and the backend schema are outside the modelled core.
