# Lab test tracker — a verified model of its routes and pages

The lab test tracker keeps patients, their lab tests, the results of each
test, and a doctor's inbox of tests assigned to that doctor. This project
models the core of the system in Dafny.

The backend is four groups of HTTP handlers over four tables:

- `/api/patients`: CRUD, plus `send-results`, which mails a report of all of the patient's tests.
- `/api/tests`: CRUD, plus `send-to-doctor`, which mails one test's results, and `assign-to-doctor`, which adds an inbox row.
- `/api/test-results`: CRUD.
- `/api/doctor/inbox`: joins the inbox rows addressed to one doctor with their test, patient and results.

The frontend parts modelled are two pages:

- The lab dashboard: the patient list in page state, the add/edit form, and the searched, gender-filtered and sorted view.
- The doctor inbox: fetching, searching and sorting the inbox, and showing the first two results of each test.

## Structure

| file | module | contents |
|---|---|---|
| `common.dfy` | `Common` | `Option`, the status-tagged `Response`, rows `Row(id, val)`, JavaScript truthiness and `a \|\| b` on optional strings, order-keeping `Filter`, the id-ordered `Listing` of a table |
| `text.dfy` | `Text` | lower-casing, substring search, `trim`, and code-point order as the collation of `localeCompare` |
| `sorting.dfy` | `Sorting` | `Array.prototype.sort` with a comparator, as a stable insertion sort; permutation, sortedness and stability |
| `store.dfy` | `Store` | the four record types; `instance.update(body)` with NOT NULL checks; the `Tables` value; the `Database` class the handlers change in place |
| `reports.dfy` | `Reports` | the structure of the mailed reports: result rows, the "No results" placeholder, the per-test sections and "No tests found." |
| `tests_routes.dfy` | `TestsRoutes` | the `/api/tests` handlers |
| `patients_routes.dfy` | `PatientsRoutes` | the `/api/patients` handlers |
| `test_results_routes.dfy` | `TestResultsRoutes` | the `/api/test-results` handlers |
| `doctor_route.dfy` | `DoctorRoute` | `GET /api/doctor/inbox`, its two loops and the final projection |
| `dashboard_page.dfy` | `DashboardPage` | the dashboard's displayed list and its `Dashboard` state class |
| `inbox_page.dfy` | `InboxPage` | the inbox page's `fetchInbox`, `filteredAndSorted` and result highlights |

### Modelling choices

- **Tables.** A table is a map from id to record plus an autoincrement counter; ids start at 1. No `findAll` call in the routes passes an `order` option, so the order of its rows is up to the database; the model lists rows in ascending id order, which is insertion order for autoincrement ids (see Left out).
- **Handlers.** Each handler is a module-level method that takes the `Database` object as a parameter. A handler that writes names `db` in its `modifies` clause. Its `ensures` gives the whole new state as an update of the old `Tables` value.
- **Errors.** Every answer is a `Response` carrying the status and the source's message text.
- **Missing NOT NULL fields.** A create body with a NOT NULL field missing or null makes the ORM throw, which the handler answers with 500 "Server error".
- **Update bodies.** An update body gives each field as absent, null or a value. A null in a NOT NULL column answers 500 and changes nothing.
- **Mail.** The mail transport is a boolean parameter: `true` means the send succeeded. The handler returns the message it handed to the transport as a value: the address and the structured report.
- **Collation and dates.**
  - `localeCompare` is modelled as code-point lexicographic order.
  - `toLowerCase` lowers ASCII letters only.
  - `trim` drops a fixed set of whitespace characters.
  - `new Date(s)` is a caller-supplied day-number function `dayOf`.
- **Sorting.** A comparator `cmp` becomes the relation `cmp(a, b) <= 0`. The sort is an insertion sort, proved stable (`Sorting.SortByStable`).
- **Send address.** The three handlers that address a doctor do not resolve the address the same way:
  - `send-to-doctor` (backend/routes/tests.js:77) and `send-results` (backend/routes/patients.js:72) prefer the patient's stored address;
  - `assign-to-doctor` (backend/routes/tests.js:141) prefers the address in the request body.

  The model keeps both rules. `TestsRoutes.SendAndAssignPrecedence` states exactly when the two rules pick different doctors.

## Model

| member | source | states |
|---|---|---|
| Common.Either | backend/routes/tests.js:77 | `a \|\| b` on optional strings: a value exactly when either is non-empty, the first one when it is non-empty, otherwise the second |
| Common.EitherOrderMatters | backend/routes/tests.js:141 | swapping the operands of `\|\|` changes the outcome exactly when both are non-empty and different |
| Common.Filter | frontend/src/pages/dashboard.js:104 | `Array.filter`: keeps exactly the elements satisfying the predicate, never more than the input; a one-element list is kept or emptied by its element (with `FilterAppend` this fixes the result, order included) |
| Common.FilterMultiplicity | frontend/src/pages/dashboard.js:104 | a satisfying element is kept as often as it occurs; every other element is dropped |
| Common.FilterAppend | backend/routes/doctor.js:15 | filtering distributes over concatenation |
| Common.Listing | backend/routes/tests.js:13 | `findAll` lists exactly the stored rows, each with its id, in ascending id order |
| Common.ListingAppend | backend/routes/tests.js:144 | inserting under the next id appends that row to the end of the listing |
| Common.FindRow | backend/routes/doctor.js:30 | `tests.find(tt => tt.id === id)`: the first row with that id when there is one, nothing exactly when there is none |
| Text.Lower | frontend/src/pages/dashboard.js:105 | lower-casing keeps the length, turns each capital A-Z into its small letter (code + 32) and changes nothing else |
| Text.LowerIdempotent | frontend/src/pages/dashboard.js:106 | lower-casing twice is lower-casing once |
| Text.Contains | frontend/src/pages/dashboard.js:105 | `includes`: true exactly when the needle occurs at some position |
| Text.ContainsEmpty | frontend/src/pages/dashboard.js:105 | every string includes the empty string |
| Text.Trim | frontend/src/pages/doctor/inbox.js:43 | `trim`: a contiguous slice of the input with only spaces before and after it, no space at either end of it, empty exactly when the input is all spaces |
| Text.TrimIdempotent | frontend/src/pages/doctor/inbox.js:43 | trimming twice is trimming once |
| Text.LowerTrimCommute | frontend/src/pages/doctor/inbox.js:43 | trimming and lower-casing commute |
| Text.LexLeqTotal | frontend/src/pages/dashboard.js:112 | the collation order compares any two strings |
| Text.LexLeqTransitive | frontend/src/pages/dashboard.js:112 | the collation order is transitive |
| Text.LexLeqAntisymmetric | frontend/src/pages/dashboard.js:112 | in the code-point stand-in for `localeCompare`, two strings that each collate no later than the other are equal; this is a property of the stand-in only, since locale collation can call distinct strings equal |
| Sorting.Insert | frontend/src/pages/dashboard.js:109-120 | inserting adds exactly one occurrence of the element |
| Sorting.SortBy | frontend/src/pages/dashboard.js:109-120 | the sort result is a permutation of its input |
| Sorting.InsertSorted | frontend/src/pages/dashboard.js:109-120 | inserting into a sorted list under a total preorder keeps it sorted |
| Sorting.SortBySorted | frontend/src/pages/dashboard.js:109-120 | under a total preorder the sort result is sorted |
| Sorting.SortedBelowTies | frontend/src/pages/dashboard.js:109 | in a list sorted by a total preorder, everything up to an element tied with `x` sorts before or with `x` |
| Sorting.InsertAfterTies | frontend/src/pages/dashboard.js:109 | under that condition, inserting `x` places it after every element tied with it, so the tied elements keep their order |
| Sorting.SortByStable | frontend/src/pages/dashboard.js:109 | `sort` is stable: for every element, the elements tied with it appear in the output in their input order |
| Sorting.SortByAllEqual | frontend/src/pages/dashboard.js:117-118 | a comparator that finds every pair equal leaves the list in its order (stability) |
| Sorting.InsertAtEnd | frontend/src/pages/dashboard.js:117-118 | under such a comparator an element is inserted at the end |
| Store.SetRequired | backend/models/Patient.js:6-8 | updating a NOT NULL column fails exactly on an explicit null; absent keeps, given replaces |
| Store.SetNullable | backend/models/Test.js:10-11 | updating a nullable column: absent keeps, null clears, given replaces |
| Store.SetRequiredThen | backend/routes/tests.js:48 | two successive updates of a NOT NULL column equal one with the later value winning |
| Store.SetNullableThen | backend/routes/tests.js:48 | two successive updates of a nullable column equal one with the later value winning |
| Store.MergePatient | backend/routes/patients.js:47 | `patient.update(body)` fails exactly when name, dob or gender is set to null; otherwise each field is the body's value when given, null when userId or doctorEmail is nulled, else the stored value |
| Store.MergeTest | backend/routes/tests.js:48 | `test.update(body)` fails exactly when type or date_taken is set to null; otherwise each field is the body's value when given, null when patientId is nulled, else the stored value |
| Store.MergeResult | backend/routes/testResults.js:44 | `result.update(body)` fails exactly when one of the five NOT NULL result columns is set to null; otherwise each field is the body's value when given, null when testId is nulled, else the stored value |
| Store.MergePatientThen | backend/routes/patients.js:47 | two successive patient updates equal one update with the combined body |
| Store.MergeTestThen | backend/routes/tests.js:48 | two successive test updates equal one update with the combined body |
| Store.MergeResultThen | backend/routes/testResults.js:44 | two successive result updates equal one update with the combined body |
| Store.MergeTestIdempotent | backend/routes/tests.js:48 | repeating a successful test update changes nothing further |
| Store.Tables.PatientOf | backend/routes/tests.js:74 | `Patient.findByPk`: the stored patient for a present id, nothing for a null or unknown id |
| Store.Tables.ResultsOf | backend/routes/tests.js:80 | `TestResult.findAll` by test: exactly the stored results of that test, in id order |
| Store.Tables.TestsOf | backend/routes/patients.js:77 | `Test.findAll` by patient: exactly the stored tests of that patient, in id order |
| Store.Tables.InboxFor | backend/routes/doctor.js:15 | `DoctorInbox.findAll` by e-mail: exactly the inbox rows addressed to it, in id order |
| Store.Database.constructor | backend/index.js:28 | a fresh database: four empty tables, every counter at 1 |
| Reports.Lines | backend/routes/tests.js:81-87 | one result row per result, in order, carrying that result's parameter, value, unit and range |
| Reports.ResultTable | backend/routes/tests.js:102 | the table is the single "No results" placeholder exactly when there are no results, else the result rows |
| Reports.ResultTableRoundTrip | backend/routes/tests.js:80-102 | reading the displayed lines back from the table gives every result, in order |
| Reports.LinesRoundTrip | backend/routes/tests.js:81-87 | reading the lines back from the result rows gives every result, in order |
| Reports.SectionsOf | backend/routes/patients.js:79-100 | one section per test, in order |
| Reports.PatientBody | backend/routes/patients.js:106 | "No tests found." exactly when the patient has no tests, else one section per test |
| Reports.PatientReportOf | backend/routes/patients.js:76-107 | the report carries the patient's name, date of birth and gender; "No tests found." exactly when the patient has no tests, else one section per test |
| Reports.PatientReportSections | backend/routes/patients.js:77-100 | section i of the patient report is the i-th test of that patient with exactly that test's results |
| Reports.PatientReportPlaceholder | backend/routes/patients.js:106 | the report says "No tests found." exactly when no stored test belongs to the patient |
| TestsRoutes.ListTests | backend/routes/tests.js:11-18 | lists every test with its id, in id order |
| TestsRoutes.GetTest | backend/routes/tests.js:21-29 | the stored test, or 404 "Test not found" |
| TestsRoutes.CreateTest | backend/routes/tests.js:32-41 | stores exactly type, date_taken and patientId under a new id, answering 201; a missing NOT NULL field answers 500 and stores nothing |
| TestsRoutes.UpdateTest | backend/routes/tests.js:44-53 | 404 and no change for an unknown id; otherwise the merged test replaces that one row, or 500 and no change on a null NOT NULL field |
| TestsRoutes.DeleteTest | backend/routes/tests.js:56-65 | 404 and no change for an unknown id; otherwise only that row is removed |
| TestsRoutes.ResolveTarget | backend/routes/tests.js:70-78 | the check chain: 404 no test, 400 no patient id, 404 no patient, 400 no address; success exactly when the test, a truthy patient id, the patient and a non-empty address all exist, and then the test, its patient and a non-empty address picked by the handler's precedence |
| TestsRoutes.SendAndAssignPrecedence | backend/routes/tests.js:141 | send-to-doctor and assign-to-doctor fail alike and agree on test and patient; their doctors differ exactly when patient and body both give different addresses |
| TestsRoutes.Reject | backend/routes/tests.js:71-78 | a failed check keeps its status (404, 400 or 500) and its message |
| TestsRoutes.SendToDoctor | backend/routes/tests.js:68-130 | the chain's failure, or a mail to the resolved address with the test's report and result table; 500 when the transport fails; no table changes |
| TestsRoutes.AssignToDoctor | backend/routes/tests.js:133-150 | the chain's failure with no change, or exactly one new inbox row for the address and the test, answering its id; the inbox grows by one |
| TestsRoutes.AssignAppendsToInbox | backend/routes/tests.js:144 | a new inbox row comes last in its doctor's inbox and leaves every other doctor's inbox as it was |
| PatientsRoutes.ListPatients | backend/routes/patients.js:11-18 | lists every patient with its id, in id order |
| PatientsRoutes.GetPatient | backend/routes/patients.js:21-29 | the stored patient, or 404 "Patient not found" |
| PatientsRoutes.CreatePatient | backend/routes/patients.js:32-40 | stores exactly name, dob, gender, userId and doctorEmail under a new id; a missing NOT NULL field answers 500 and stores nothing |
| PatientsRoutes.UpdatePatient | backend/routes/patients.js:43-52 | 404 and no change for an unknown id; otherwise the merged patient replaces that one row, or 500 and no change |
| PatientsRoutes.DeletePatient | backend/routes/patients.js:55-64 | 404 and no change for an unknown id; otherwise only that patient row is removed, its tests stay |
| PatientsRoutes.SendResults | backend/routes/patients.js:67-131 | 404 unknown patient; the patient's address else the body's, else 400; then a mail of the patient report to it, 500 when the transport fails |
| PatientsRoutes.AsDeclared | backend/models/Patient.js:5-9 | a patient as the declared table keeps it: no doctor address, every declared column unchanged |
| PatientsRoutes.AsDeclaredIgnoresPatientAddress | backend/routes/patients.js:72 | as written, with no stored addresses both precedence rules agree, and a request without a body address never reaches a doctor |
| PatientsRoutes.AddressLostAsDeclared | backend/routes/tests.js:77-78 | as written, a patient created with an address and a test of theirs: send-to-doctor without a body address answers 400 |
| PatientsRoutes.AddressKeptWhenStored | backend/routes/tests.js:77-78 | with the address stored, the same request resolves to the address given at creation |
| PatientsRoutes.SendResultsAgreesWithSendToDoctor | backend/routes/patients.js:72 | send-results picks the same doctor as send-to-doctor does for any of the patient's tests |
| TestResultsRoutes.ListResults | backend/routes/testResults.js:8-15 | lists every result with its id, in id order |
| TestResultsRoutes.GetResult | backend/routes/testResults.js:18-26 | the stored result, or 404 "Test result not found" |
| TestResultsRoutes.CreateResult | backend/routes/testResults.js:29-37 | stores exactly the six body fields under a new id without checking the test; a missing NOT NULL field answers 500 |
| TestResultsRoutes.UpdateResult | backend/routes/testResults.js:40-49 | 404 and no change for an unknown id; otherwise the merged result replaces that one row, or 500 and no change |
| TestResultsRoutes.DeleteResult | backend/routes/testResults.js:52-61 | 404 and no change for an unknown id; otherwise only that row is removed |
| DoctorRoute.View | backend/routes/doctor.js:29-38 | the join of inbox rows: defined exactly when every row's test exists, then one entry per row in order |
| DoctorRoute.InboxResponse | backend/routes/doctor.js:12-43 | 400 exactly for a missing or empty e-mail; 200 exactly when every addressed inbox row's test exists, with one entry per row; otherwise 500 |
| DoctorRoute.InboxIsJoin | backend/routes/doctor.js:15-38 | a successful answer has one entry per inbox row addressed to the doctor, in id order, each with that row's id and address, its test, its patient and exactly its results |
| DoctorRoute.InboxFailsOnDanglingRow | backend/routes/doctor.js:29-43 | the route answers 500 exactly when some addressed inbox row refers to a deleted test |
| DoctorRoute.SameTestSameEntry | backend/routes/doctor.js:29-37 | two inbox rows for one test give entries with the same test, patient and results |
| DoctorRoute.Project | backend/routes/doctor.js:29-38 | `items.map` over the fetched tests: defined exactly when every row's test is among them; then entry k carries row k's id and address, its test and the two maps' entries for it |
| DoctorRoute.ProjectIsView | backend/routes/doctor.js:29-38 | the final `items.map` over the two filled maps equals the join computed directly from the tables |
| DoctorRoute.MemoisePatients | backend/routes/doctor.js:18-23 | the first loop maps every fetched test's patient id to its `findByPk` answer; an id is looked up again only when it was not found |
| DoctorRoute.CollectResults | backend/routes/doctor.js:24-27 | the second loop maps every fetched test's id to exactly its results |
| DoctorRoute.FetchedTestsFound | backend/routes/doctor.js:16-17 | the tests fetched by id are exactly the existing tests of the inbox rows, so `tests.find` finds a row's test exactly when it exists |
| DoctorRoute.FetchInbox | backend/routes/doctor.js:10-45 | 400 for an empty e-mail; otherwise the join above, or 500; the patient lookups are exactly the patient ids of the joined tests, repeated only for ids not found |
| DashboardPage.FilterAndSortPatients | frontend/src/pages/dashboard.js:103-120 | the displayed list is a permutation of the patients matching the search and the gender filter |
| DashboardPage.PatientOrderIsTotal | frontend/src/pages/dashboard.js:109-120 | every sort key's comparator is a total preorder |
| DashboardPage.DisplayedIsSorted | frontend/src/pages/dashboard.js:109-120 | the displayed list is ordered by name, date of birth or gender as chosen |
| DashboardPage.DisplayedIsStable | frontend/src/pages/dashboard.js:109-120 | patients the chosen key calls equal are displayed in the order of the filtered list |
| DashboardPage.UnknownKeyKeepsOrder | frontend/src/pages/dashboard.js:117-118 | any other sort key leaves the filtered list in its order |
| DashboardPage.EmptySearchShowsAll | frontend/src/pages/dashboard.js:104-108 | an empty search with gender "all" shows every patient |
| DashboardPage.Replaced | frontend/src/pages/dashboard.js:54 | `patients.map`: same length, each patient with the edited id replaced by the reply, every other patient in place |
| DashboardPage.ReplacedProperties | frontend/src/pages/dashboard.js:54 | replacing an id no patient has changes nothing; repeating a replacement changes nothing further |
| DashboardPage.Removed | frontend/src/pages/dashboard.js:89 | the order-keeping filter of the patients with a different id: each kept as often as it occurred, the list unchanged when no patient has the id |
| DashboardPage.AddThenDeleteRestores | frontend/src/pages/dashboard.js:70 | deleting a just-added patient with a new id restores the list from before the add |
| DashboardPage.Dashboard.constructor | frontend/src/pages/dashboard.js:7-12 | the initial page state: no patients, empty form, no edit, loading |
| DashboardPage.Dashboard.Load | frontend/src/pages/dashboard.js:20-32 | without a token "Not logged in"; a list reply becomes the patients; an error reply sets the error, falling back to "Failed to fetch patients" |
| DashboardPage.Dashboard.HandleChange | frontend/src/pages/dashboard.js:34 | sets exactly the named form field |
| DashboardPage.Dashboard.HandleSubmit | frontend/src/pages/dashboard.js:36-76 | no token: "Not logged in" and no request; editing: a PUT of the form, and on a reply with an id the replaced list, reset form and cleared edit; adding: a POST with userId 1, and on a reply with an id the reply appended; any other reply sets only the message, with the fallback text |
| DashboardPage.Dashboard.HandleEdit | frontend/src/pages/dashboard.js:78-81 | the form takes the patient's fields and the edit id becomes the patient's id |
| DashboardPage.Dashboard.HandleDelete | frontend/src/pages/dashboard.js:83-95 | a DELETE for the id; on an ok reply the patients with that id are removed, and the edit and form are reset exactly when that patient was being edited |
| DashboardPage.Dashboard.HandleCancelEdit | frontend/src/pages/dashboard.js:97-100 | clears the edit id and the form, nothing else |
| InboxPage.ItemOf | frontend/src/pages/doctor/inbox.js:47-58 | the fields the page reads from an inbox entry; no patient name exactly when the entry has no patient |
| InboxPage.ItemsOf | frontend/src/pages/doctor/inbox.js:31 | one item per entry of the answer, in order |
| InboxPage.FetchInbox | frontend/src/pages/doctor/inbox.js:25-35 | no request and no change for an empty e-mail; otherwise the items become the answer's entries, or the empty list for an error answer |
| InboxPage.GuardMatchesRoute | frontend/src/pages/doctor/inbox.js:26 | the page sends a query exactly when the route would not refuse it with 400 |
| InboxPage.FetchShowsInbox | frontend/src/pages/doctor/inbox.js:29-31 | after a fetch against a database without dangling rows, the page holds one item per addressed inbox row, in id order, with its test's type, date and results |
| InboxPage.OrEmpty | frontend/src/pages/doctor/inbox.js:47 | `x \|\| ''`: the value when non-empty, else the empty string |
| InboxPage.Base | frontend/src/pages/doctor/inbox.js:43-49 | an empty query keeps the items as they are; otherwise the order-keeping filter of the items whose patient name or test type contains it |
| InboxPage.FilteredAndSorted | frontend/src/pages/doctor/inbox.js:42-62 | the sorted list is a permutation of the searched items; `items` is left as it was |
| InboxPage.BlankSearchKeepsAll | frontend/src/pages/doctor/inbox.js:43-45 | a search of only whitespace keeps every item |
| InboxPage.SearchIgnoresCase | frontend/src/pages/doctor/inbox.js:43-48 | changing the case of the search changes nothing |
| InboxPage.ItemOrderIsTotal | frontend/src/pages/doctor/inbox.js:50-60 | every sort key's comparator is a total preorder |
| InboxPage.SortedIsStable | frontend/src/pages/doctor/inbox.js:50-60 | items the chosen key calls equal keep the order of the searched list |
| InboxPage.SortedByKey | frontend/src/pages/doctor/inbox.js:50-60 | name and type sort ascending; "date" and every other key sort newest first, a missing date counting as 0 |
| InboxPage.Highlights | frontend/src/pages/doctor/inbox.js:136-141 | at most the first two results are shown, and "…and more" appears exactly when there are more than two |
| InboxPage.HighlightsComplete | frontend/src/pages/doctor/inbox.js:136-141 | without "…and more" every result is shown; with it, the shown two followed by the rest are all the results |

## Left out

- Mail transport: building the transport and `sendMail` are I/O. The model uses a success flag, and the report is structured rather than HTML markup with inline styles.
- Database failures: connection loss, pool exhaustion or sync errors are not modelled. Such failures would answer 500 from any handler: "Failed to send test result" from `send-to-doctor` (backend/routes/tests.js:128), "Failed to send results" from `send-results` (backend/routes/patients.js:129) and "Failed to assign to doctor inbox" from `assign-to-doctor` (backend/routes/tests.js:148).
- Foreign keys and cascades: the database's ON DELETE behaviour is not modelled. A delete removes only its own row, and creates do not check that a referenced row exists.
- Timestamps: the `createdAt` and `updatedAt` columns the ORM adds are not modelled.
- Request ids: an `:id` that is not a number is not modelled; ids are natural numbers. An `id` key inside an update body is not modelled.
- FLOAT columns: the result value and range are carried as reals and never computed with.
- Date parsing: `new Date(...)` is the parameter `dayOf`, so an unparsable date (NaN in the comparator) is not modelled.
- Collation: Unicode collation, Unicode case mapping and the full whitespace class of `trim` are reduced to code-point order, ASCII lower-casing and a fixed whitespace set.
- Patient.doctorEmail: the model stores the address as a nullable column, as the routes read and write it. The declared table has no such column; see Findings.
- Row order of `findAll`: no call passes an `order` option (backend/routes/tests.js:13, :80; backend/routes/patients.js:13, :77; backend/routes/testResults.js:10; backend/routes/doctor.js:15, :17, :26), so the database may return rows in any order. Ascending id order is a modelling choice. The "in id order" parts of `ListTests`, `ListPatients`, `ListResults`, `Tables.ResultsOf`, `Tables.TestsOf`, `Tables.InboxFor`, `InboxIsJoin`, `FetchShowsInbox` and `PatientReportSections` hold under that choice only; the membership parts hold for any order.
- Network failures on the pages: a `fetch` that rejects (no connection) is not modelled. The dashboard's requests (frontend/src/pages/dashboard.js:27, :46, :62, :85) and the inbox fetch (frontend/src/pages/doctor/inbox.js:29) are modelled as always receiving a JSON reply; on a rejection the dashboard's submit has already cleared its message (frontend/src/pages/dashboard.js:38) and changes nothing else, the dashboard's delete and mount effect change nothing, and the inbox page keeps its items and clears its loading flag.
- Inbox testId: `DoctorInbox.testId` is modelled as always set, because the only writer, `assign-to-doctor`, always sets it.
- Authentication: tokens, logins, the user table and the doctor page's role redirect are not modelled. The dashboard only checks whether a token is present, and the model keeps that check.
- Page rendering and loading flags: page markup, the loading and error screens and the inbox page's loading flag are not modelled. Saving the e-mail to local storage (`handleSave`) is not modelled either.
- Concurrency: interleaving of asynchronous requests and page updates is not modelled. Each handler runs to completion against one state.
- Sorting: `Sorting.SortBy` is one stable sort. A JavaScript engine may call the comparator in a different order. For a total preorder, a stable sort's output is fixed by sortedness (`Sorting.SortBySorted`), the permutation and stability (`Sorting.SortByStable`), so the result is the same; that uniqueness argument itself is not stated as a lemma.

## Findings

| source | as written | input that shows it | evidently intended | confidence | as-written member | corrected member |
|---|---|---|---|---|---|---|
| backend/models/Patient.js:5-9 | The Patient model declares only name, dob and gender, and the server syncs the schema with `alter: true` (backend/index.js:28). `doctorEmail` in `POST /patients` and `PUT /patients/:id` is therefore never stored, and `patient.doctorEmail` in send-to-doctor and send-results is always undefined. | Create patient 1 with `doctorEmail: "dr@lab"` and test 1 of patient 1. Then `POST /tests/1/send-to-doctor` with no body address answers 400 "Doctor email not set for this patient". | The patient's stored doctor address is kept and used when the body gives none, as both routes' precedence rules presuppose. | medium, not executed (rests on the ORM dropping undeclared attributes) | PatientsRoutes.AddressLostAsDeclared | PatientsRoutes.AddressKeptWhenStored |
