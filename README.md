# Aidmate dispatch core, modelled in Dafny

Aidmate is a small emergency-dispatch web application. A medical director
creates cases and assigns them to paramedics. A paramedic starts a case,
records treatment notes, completes it with a medical report, and reviews past
cases. A chat assistant answers free-text questions and suggests follow-up
questions.

This project models the decision logic of that application and proves
properties about it:

- **Request middleware** (`Middleware`): which paths pass, which go to the
  login page, and which go back home. The session token is an input.
- **Assistant reply splitter** (`Gemini`, on top of `Strings` and `Seqs`):
  the main response and the list of suggested follow-ups cut out of the
  model's text. The text is an input; the language-model call is not modelled.
  `Strings` gives the JavaScript string operations as functions over
  character sequences: `indexOf`, `includes`, first-occurrence `replace`,
  one-character `split`/`join`, and `trim` over the full ECMAScript
  whitespace set.
- **Server handlers** over an in-memory store (`Store.Db`: the case table as a
  sequence, the user table as a map keyed by id):
  - case list and creation (`CasesRoute`);
  - the paramedic's active cases (`ParamedicCasesRoute`) and history
    (`HistoryRoute`);
  - the director's counters (`StatsRoute`);
  - the paramedic's location and availability (`LocationRoute`,
    `AvailabilityRoute`).

  The session is `Option<Session>`. "Newest first" is a sort of the case
  sequence (`Ordering`). Read-only handlers have no `modifies` clause, so
  they cannot change the store.
- **Client components** as classes whose fields are the component's state and
  whose methods are its handlers. Each server reply is a parameter of the
  handler:
  - the director's case table (`CasesList`);
  - the paramedic's case page (`CasePage`);
  - the new-case form (`CaseForm`);
  - the case-history page (`CaseHistory`).

Request-body fields use `Field<T>` (absent, null, or a value). JavaScript
truthiness (`!x`, `x || null`) is spelled out on it: empty string, zero and
null are falsy.

## Model

| member | source | states |
|---|---|---|
| Domain.RoleOf | aidmate/types/user.ts:7 | any role string is read as a role that prints back as the same string |
| Strings.IndexOf | app/api/gemini/route.ts:106 | -1 exactly when the pattern occurs nowhere; otherwise an occurrence with none before it |
| Strings.BeforeFirst | app/api/gemini/route.ts:84 | `split(sub)[0]`: the text up to the first occurrence of the (non-empty) pattern, which starts right after it; the whole text when it does not occur |
| Strings.ReplaceFirst | app/api/gemini/route.ts:111 | a text without the pattern is returned unchanged; otherwise exactly one occurrence's length is exchanged for the replacement's |
| Strings.ReplaceFirstAtFirst | app/api/gemini/route.ts:111 | the occurrence replaced is the first one: the text before it, then the replacement, then the text after it |
| Strings.LaterOccurrenceSurvives | app/api/gemini/route.ts:111 | a later, non-overlapping occurrence of the pattern is still there after the replacement |
| Strings.Trim | app/api/gemini/route.ts:112 | the result has no whitespace at either end, and is empty exactly when the text is all whitespace |
| Strings.TrimIsInfix | app/api/gemini/route.ts:112 | the trimmed text is a piece of the text with only whitespace before and after it |
| Strings.TrimIdempotent | app/api/gemini/route.ts:116 | trimming twice is trimming once |
| Strings.TrimKeepsAbsence | app/api/gemini/route.ts:84 | trimming never makes a text contain a pattern it lacked |
| Strings.Split | app/api/gemini/route.ts:115 | at least one piece, no piece holds the separator, and joining the pieces gives the text back |
| Strings.SplitJoin | app/api/gemini/route.ts:115 | splitting joined separator-free pieces gives the pieces back |
| Seqs.Filter | app/components/director/CasesList.tsx:183 | an element is kept exactly when it was in the input and passes the test |
| Seqs.FilterCount | app/components/director/CasesList.tsx:183 | each passing element is kept as often as it occurs; others never |
| Seqs.FilterConcat | app/api/gemini/route.ts:117 | filtering keeps order: it distributes over concatenation |
| Seqs.Take | aidmate/app/api/paramedic/history/route.ts:83 | a prefix of exactly n elements when the sequence is longer, the whole sequence otherwise |
| Ordering.SortNewestFirst | app/api/cases/route.ts:18-21 | a permutation of the input ordered by non-increasing creation time |
| Middleware.Decide | middleware.ts:5-52 | auth routes always pass; only a request without a token is sent to the login page |
| Middleware.AuthRoutesPass | middleware.ts:7-9 | any path under "/api/auth" passes whatever the token |
| Middleware.PublicPathsPass | middleware.ts:14-29 | the five public paths, and any path containing "favicon" or "_next", pass without a token |
| Middleware.SubstringBypass | middleware.ts:24-28 | "/director/_next" passes without a token |
| Middleware.NoTokenRedirectsToLogin | middleware.ts:38-40 | any other path without a token goes to the login page |
| Middleware.TokenNeverRedirectsToLogin | middleware.ts:38-51 | with a token the login redirect never happens |
| Middleware.DirectorPagesNeedDirector | middleware.ts:43-45 | a "/director" page sends a token holder home exactly when the role is not MEDICAL_DIRECTOR |
| Middleware.ParamedicPagesNeedParamedic | middleware.ts:47-49 | a "/paramedic" page sends a token holder home exactly when the role is not PARAMEDIC |
| Middleware.OtherPagesPassAnyRole | middleware.ts:51 | outside the two dashboards every token holder passes |
| Middleware.MatcherSkipsAuthRoutes | middleware.ts:62 | the configured matcher never selects an "/api/auth" path |
| Middleware.MatcherReachesBypass | middleware.ts:62 | the matcher does select "/director/_next", so the bypass is live |
| Gemini.StripListMarker | app/api/gemini/route.ts:116 | one leading "- " is removed when present; otherwise the line is unchanged |
| Gemini.CleanLine | app/api/gemini/route.ts:116 | a cleaned line has no whitespace at either end |
| Gemini.CleanAll | app/api/gemini/route.ts:116 | every line cleaned, one for one |
| Gemini.Survivors | app/api/gemini/route.ts:114-117 | the kept lines are exactly the cleaned lines that are non-empty and not the bare marker |
| Gemini.SurvivorsConcat | app/api/gemini/route.ts:114-117 | the kept lines stay in their original order |
| Gemini.PredictionsText | app/api/gemini/route.ts:109-112 | the text from the first marker on, trimmed, when the preamble sentence is not in it; always trimmed |
| Gemini.ExtractPredictions | app/api/gemini/route.ts:105-120 | no marker gives no predictions; each prediction is non-empty, not the marker, and trimmed |
| Gemini.MarkerFirstAt | app/api/gemini/route.ts:106 | a marker placed after text that lacks it is the first occurrence found |
| Gemini.MarkerLineDropped | app/api/gemini/route.ts:117 | the marker's own line is never a prediction |
| Gemini.ExtractPredictionsOfLines | app/api/gemini/route.ts:105-120 | a reply made of text, the marker line and lines below it yields exactly the kept lines below the marker, in order |
| Gemini.PredictionsStartAtMarker | app/api/gemini/route.ts:106-110 | nothing before the first marker affects the predictions |
| Gemini.MainResponse | app/api/gemini/route.ts:84 | the text before the first marker, trimmed; never contains the marker; without a marker the whole reply trimmed |
| Gemini.MainResponseBeforeMarker | app/api/gemini/route.ts:84 | a reply of text, the marker and anything after it has that text, trimmed, as its main response |
| Gemini.StripsOneMarkerOnly | app/api/gemini/route.ts:116 | only one "- " is stripped, and it is stripped before trimming |
| Gemini.PreambleRemovedOnce | app/api/gemini/route.ts:111 | only the first copy of the preamble sentence is removed |
| Gemini.HandlePost | app/api/gemini/route.ts:4-95 | an empty query gives 400; a missing key gives 500; with a query and a key, generated text is always an answer, split as above, and a failed generation is 500 with the error's text |
| Gemini.EmptyQueryIgnoresModel | app/api/gemini/route.ts:8-14 | an empty query is answered without regard to the key or the model |
| Store.Db.constructor | app/api/cases/route.ts:82 | the store starts with the given tables |
| Store.Guard | aidmate/app/api/paramedic/cases/route.ts:10-23 | no session gives 401; another role gives 403; the request proceeds exactly for the required role |
| CasesRoute.Get | app/api/cases/route.ts:7-31 | 401 without a session; otherwise 200 with every case, newest first |
| CasesRoute.TextOrNull | app/api/cases/route.ts:84 | an empty or missing text is stored as null, any other as given |
| CasesRoute.IntOrNull | app/api/cases/route.ts:85 | an age of 0 or a missing one is stored as null |
| CasesRoute.RealOrNull | app/api/cases/route.ts:88-89 | a coordinate of 0 or a missing one is stored as null |
| CasesRoute.RequiredPresent | app/api/cases/route.ts:75 | location, description and severity are each present and non-empty |
| CasesRoute.NewCase | app/api/cases/route.ts:82-96 | status NEW, director = session user, the given id and time, no paramedic, notes or report; required fields as sent; each optional field as sent when truthy, else null |
| CasesRoute.Post | app/api/cases/route.ts:44-98 | 401, then 403 for a non-director, then 400 for a missing location, description or severity (any non-empty severity is accepted); a failure creates nothing; success is 201 and appends exactly the new case |
| ParamedicCasesRoute.ActiveCases | aidmate/app/api/paramedic/cases/route.ts:26-31 | exactly the cases assigned to the paramedic that are ASSIGNED or IN_PROGRESS |
| ParamedicCasesRoute.Get | aidmate/app/api/paramedic/cases/route.ts:6-38 | 401/403 guard; the result holds exactly the paramedic's active cases, newest first |
| ParamedicCasesRoute.ForeignOrClosedNeverListed | aidmate/app/api/paramedic/cases/route.ts:28-31 | another paramedic's case, or a NEW or COMPLETED one, is never listed |
| HistoryRoute.StartDate | aidmate/app/api/paramedic/history/route.ts:45-57 | today, week or month select their instant; any other period starts at the epoch |
| HistoryRoute.ClauseFor | aidmate/app/api/paramedic/history/route.ts:31-62 | always the paramedic; the status exactly when given and not "all"; a start date exactly when a period is given |
| HistoryRoute.BuildWhere | aidmate/app/api/paramedic/history/route.ts:31-62 | the clause built field by field is the clause the parameters call for |
| HistoryRoute.HistoryRow | aidmate/app/api/paramedic/history/route.ts:79-84 | the row is the case with only its first treatment note |
| HistoryRoute.Rows | aidmate/app/api/paramedic/history/route.ts:65-91 | one row per matching case and nothing else: each row is the cut-down form of a matching case, and every matching case has its row |
| HistoryRoute.RowsConcat | aidmate/app/api/paramedic/history/route.ts:65-91 | the rows of two case lists are the rows of each, in order |
| HistoryRoute.RowsOfOne | aidmate/app/api/paramedic/history/route.ts:65-91 | a single case gives its row exactly when it matches the clause |
| HistoryRoute.Get | aidmate/app/api/paramedic/history/route.ts:6-93 | 401/403 guard; the rows for the parameters' clause, newest first, all the paramedic's own, at most one note each |
| HistoryRoute.UnknownPeriodRestrictsNothing | aidmate/app/api/paramedic/history/route.ts:55-57 | an unknown period excludes no case created after the epoch |
| HistoryRoute.RowKeepsWhetherNotesExist | aidmate/app/api/paramedic/history/route.ts:83 | a row has a note exactly when its case has one |
| StatsRoute.CountWithStatus | aidmate/app/api/cases/stats/route.ts:28-42 | at most the number of cases; zero exactly when no case has that status |
| StatsRoute.StatsOf | aidmate/app/api/cases/stats/route.ts:26-42 | the total is the number of cases |
| StatsRoute.Get | aidmate/app/api/cases/stats/route.ts:6-50 | 401/403 guard; otherwise the counters of the store |
| StatsRoute.CountUnknown | aidmate/app/api/cases/stats/route.ts:26-42 | zero exactly when every case has one of the four known statuses |
| StatsRoute.CountersPartition | aidmate/app/api/cases/stats/route.ts:26-42 | the four counters plus the unknown-status cases add up to the total |
| StatsRoute.CountersBoundedByTotal | aidmate/app/api/cases/stats/route.ts:26-42 | the four counters sum to at most the total, with equality exactly when every status is known |
| StatsRoute.CountAppend | aidmate/app/api/cases/stats/route.ts:28-42 | a new case raises only the counter of its own status |
| StatsRoute.CreationCountsAsNew | aidmate/app/api/cases/stats/route.ts:26-30 | after a creation, the total and the NEW counter each go up by one and the rest stay |
| LocationRoute.Complete | app/api/paramedic/location/route.ts:27 | the body passes exactly with a non-empty location and both coordinates present, null allowed |
| LocationRoute.Stored | app/api/paramedic/location/route.ts:35-38 | a null coordinate is stored as none, a number as itself |
| LocationRoute.Relocated | app/api/paramedic/location/route.ts:35-38 | only location, latitude and longitude change |
| LocationRoute.Patch | app/api/paramedic/location/route.ts:6-47 | 401/403; 400 for a falsy location or an absent coordinate; a missing user is 500; success rewrites only the session user and returns it |
| LocationRoute.ZeroCoordinatesAccepted | app/api/paramedic/location/route.ts:27 | coordinates of 0, and null ones, pass the check |
| AvailabilityRoute.Apply | app/api/paramedic/availability/route.ts:25-31 | only the availability flag changes, to the value sent; an absent value changes nothing |
| AvailabilityRoute.Patch | app/api/paramedic/availability/route.ts:6-40 | 401/403; a missing user is 500; success rewrites only the session user and returns it |
| AvailabilityRoute.ToggleTwiceRestores | app/api/paramedic/availability/route.ts:25-31 | two toggles in a row restore the user record |
| CasesList.Filtered | app/components/director/CasesList.tsx:181-183 | "all" returns the list unchanged; any other filter keeps exactly the cases with that status |
| CasesList.TotalPages | app/components/director/CasesList.tsx:189 | the fewest pages of ten that hold the rows |
| CasesList.PageOf | app/components/director/CasesList.tsx:186-188 | at most ten rows, taken in order from index (p-1)*10; empty exactly beyond the last page |
| CasesList.PagesArePrefix | app/components/director/CasesList.tsx:186-189 | the first k pages together are the first 10k rows |
| CasesList.PagesCoverAll | app/components/director/CasesList.tsx:186-189 | pages 1 to totalPages together are exactly the list |
| CasesList.FindParamedic | app/components/director/CasesList.tsx:134 | none exactly when no paramedic has the id; otherwise the first listed paramedic with that id |
| CasesList.MarkAssigned | app/components/director/CasesList.tsx:129-137 | same length; cases with other ids untouched; the case with that id gets status ASSIGNED and the paramedic, and nothing else changes |
| CasesList.AssignedLeavesNewFilter | app/components/director/CasesList.tsx:129-137 | an assigned case no longer shows under the NEW filter |
| CasesList.CasesListView.constructor | app/components/director/CasesList.tsx:25-34 | the initial state: loading, no cases, filter "all", page 1 |
| CasesList.CasesListView.FilteredCases | app/components/director/CasesList.tsx:181-183 | never more rows than loaded |
| CasesList.CasesListView.PageCount | app/components/director/CasesList.tsx:189 | enough pages for every filtered row |
| CasesList.CasesListView.CurrentCases | app/components/director/CasesList.tsx:186-188 | at most ten rows, empty exactly when the page is past the last |
| CasesList.CasesListView.RenderedRowsAsWritten | app/components/director/CasesList.tsx:265 | the table holds a row exactly when the filter lets it through, and holds more than ten rows whenever the pager shows |
| CasesList.CasesListView.RenderedRows | app/components/director/CasesList.tsx:188 | the corrected table body holds at most ten rows |
| CasesList.CasesListView.Shown | app/components/director/CasesList.tsx:224-265 | loading first, then the error; after that the empty notice exactly when nothing passes the filter, otherwise the table of the page's rows |
| CasesList.CasesListView.PagerShown | app/components/director/CasesList.tsx:359 | the pager shows exactly when more than ten rows pass the filter |
| CasesList.CasesListView.LoadCases | app/components/director/CasesList.tsx:38-57 | success stores the list (none → empty); a failure empties it and sets the server's or a fallback message; loading ends |
| CasesList.CasesListView.LoadParamedics | app/components/director/CasesList.tsx:62-88 | a received array is stored; anything else leaves none |
| CasesList.CasesListView.SelectParamedic | app/components/director/CasesList.tsx:94-99 | only that case's selection changes |
| CasesList.CasesListView.Selection | app/components/director/CasesList.tsx:103-104 | a choice exists exactly when a non-empty one was made |
| CasesList.CasesListView.Assign | app/components/director/CasesList.tsx:102-155 | no selection changes nothing; success rewrites exactly that case and clears only its selection; assigning is null after every request |
| CasesList.CasesListView.ChangeFilter | app/components/director/CasesList.tsx:209-211 | only the filter changes; the page is not reset |
| CasesList.CasesListView.ClickPrevious | app/components/director/CasesList.tsx:361-367 | moves back one page unless on page 1 or the pager is hidden; never below 1 |
| CasesList.CasesListView.ClickNext | app/components/director/CasesList.tsx:371-377 | moves on one page unless on the last or the pager is hidden; stays within the page count |
| CasesList.RenderIgnoresPage | app/components/director/CasesList.tsx:265 | with eleven rows the pager shows two pages but the table holds all eleven |
| CasesList.RenderedPagesCoverFiltered | app/components/director/CasesList.tsx:186-189 | the pages the pager offers together are exactly the filtered rows |
| CasePage.OfferedAction | aidmate/app/components/paramedic/CasePage.tsx:244-263 | "Start Case" exactly for ASSIGNED; "Complete Case" exactly for IN_PROGRESS with the form hidden; nothing once COMPLETED |
| CasePage.BlankNoteIsWhitespace | aidmate/app/components/paramedic/CasePage.tsx:128 | a note is refused exactly when it is all whitespace |
| CasePage.NoteFormShown | aidmate/app/components/paramedic/CasePage.tsx:361 | the note form is offered for assigned and in-progress cases, and hidden only once the case is completed, when no action is offered either |
| CasePage.AppendNote | aidmate/app/components/paramedic/CasePage.tsx:143-149 | the note is added at the end, earlier notes kept in order, nothing else changed |
| CasePage.Completed | aidmate/app/components/paramedic/CasePage.tsx:184-191 | status COMPLETED with the report attached, nothing else changed; no action and no note form remain |
| CasePage.FieldValue | aidmate/app/components/paramedic/CasePage.tsx:160-166 | the hospital-transfer field is read as a checkbox, the others as text |
| CasePage.WithInput | aidmate/app/components/paramedic/CasePage.tsx:160-166 | the named field takes the control's value (a boolean for the checkbox); every other field keeps its own |
| CasePage.UndoChange | aidmate/app/components/paramedic/CasePage.tsx:160-166 | changing a control back restores the form |
| CasePage.CasePageView.constructor | aidmate/app/components/paramedic/CasePage.tsx:47-64 | the initial state, with the report form at its defaults |
| CasePage.CasePageView.FetchCaseData | aidmate/app/components/paramedic/CasePage.tsx:74-87 | stores the case received, or sets the load error; loading ends |
| CasePage.CasePageView.HandleStatusChange | aidmate/app/components/paramedic/CasePage.tsx:108-124 | on success only the status field changes; a failure changes nothing |
| CasePage.CasePageView.ClickStartCase | aidmate/app/components/paramedic/CasePage.tsx:246-253 | an assigned case moves to IN_PROGRESS on success; nothing else happens |
| CasePage.CasePageView.ClickCompleteCase | aidmate/app/components/paramedic/CasePage.tsx:254-261 | opens the report form only for an in-progress case |
| CasePage.CasePageView.CancelReport | aidmate/app/components/paramedic/CasePage.tsx:482-488 | closes the report form and keeps everything else |
| CasePage.CasePageView.HandleAddTreatmentNote | aidmate/app/components/paramedic/CasePage.tsx:126-158 | a blank note sends nothing and changes nothing; success appends the note and clears the input; a failure keeps the case and the input |
| CasePage.CasePageView.HandleReportChange | aidmate/app/components/paramedic/CasePage.tsx:160-166 | only the named report field changes |
| CasePage.CasePageView.HandleSubmitReport | aidmate/app/components/paramedic/CasePage.tsx:168-200 | success completes the case with the returned report and hides the form; a failure keeps the case; the form is only ever open on an in-progress case |
| CaseForm.WithText | aidmate/app/components/director/CaseForm.tsx:42-48 | only the named field changes; location and coordinates stay |
| CaseForm.WithLocation | aidmate/app/components/director/CaseForm.tsx:51-58 | only location, latitude and longitude change |
| CaseForm.Validate | aidmate/app/components/director/CaseForm.tsx:72-78 | passes exactly with a location, non-zero coordinates and a description; the location message comes first |
| CaseForm.EnabledButtonCanStillFail | aidmate/app/components/director/CaseForm.tsx:286 | the button ignores the description: it can be enabled on a form that the check refuses |
| CaseForm.SubmitDisabled | aidmate/app/components/director/CaseForm.tsx:286 | when not loading the button is disabled exactly when the location check would refuse the form |
| CaseForm.DigitRun | aidmate/app/components/director/CaseForm.tsx:87 | the length of the leading run of digits |
| CaseForm.ParseMagnitude | aidmate/app/components/director/CaseForm.tsx:87 | no number exactly when no digit follows (after a "0x" prefix, a hexadecimal digit) |
| CaseForm.ParseSigned | aidmate/app/components/director/CaseForm.tsx:87 | a number exactly when digits follow the optional sign; a minus sign gives no positive value, otherwise no negative one |
| CaseForm.ParseInt | aidmate/app/components/director/CaseForm.tsx:87 | a text of whitespace only is not a number |
| CaseForm.ParseIntSkipsWhitespace | aidmate/app/components/director/CaseForm.tsx:87 | leading whitespace does not change the value read |
| CaseForm.DecimalValue | aidmate/app/components/director/CaseForm.tsx:87 | the digits of a rendered number denote that number |
| CaseForm.ParseDecimal | aidmate/app/components/director/CaseForm.tsx:87 | parseInt reads a rendered number back, whatever follows it |
| CaseForm.ParseNegativeDecimal | aidmate/app/components/director/CaseForm.tsx:87 | the same with a minus sign |
| CaseForm.MinusNegates | aidmate/app/components/director/CaseForm.tsx:87 | a minus sign in front of a readable magnitude negates it |
| CaseForm.AgeField | aidmate/app/components/director/CaseForm.tsx:87 | an empty age is sent as null, a non-number as null, otherwise the parsed integer |
| CaseForm.RequestBody | aidmate/app/components/director/CaseForm.tsx:85-88 | the fields as they stand, with the age converted: every text field sent as typed |
| CaseForm.ValidFormIsAccepted | aidmate/app/components/director/CaseForm.tsx:72-88 | a form the client accepts, with a severity, passes the server's field check, and the stored case keeps its place and coordinates |
| CaseForm.TypedAgeIsStored | aidmate/app/components/director/CaseForm.tsx:87 | a typed age reaches the stored case, except 0, which is stored as null |
| CaseForm.ServerErrorBody | app/api/cases/route.ts:76-79 | the endpoint's refusal carries no `message`, and its text is recovered by reading `error` |
| CaseForm.RefusalMessage | aidmate/app/components/director/CaseForm.tsx:91-94 | corrected: the server's error text when it sent a non-empty one, else "Failed to create case" |
| CaseForm.RefusalMessageAsWritten | aidmate/app/components/director/CaseForm.tsx:91-94 | as written: the body's `message` when non-empty, else "Failed to create case" |
| CaseForm.RefusalReasonLost | aidmate/app/components/director/CaseForm.tsx:91-94 | as written, every refusal shows the same fallback text |
| CaseForm.ExpiredSessionShownAfterFix | aidmate/app/components/director/CaseForm.tsx:93 | a 401 "Unauthorized" refusal is shown as the fallback as written, and as "Unauthorized" after the correction |
| CaseForm.CaseFormView.constructor | aidmate/app/components/director/CaseForm.tsx:24-39 | the initial form |
| CaseForm.CaseFormView.HandleChange | aidmate/app/components/director/CaseForm.tsx:42-48 | only the named field changes |
| CaseForm.CaseFormView.HandleLocationSave | aidmate/app/components/director/CaseForm.tsx:51-58 | only the place and the coordinates change |
| CaseForm.CaseFormView.HandleSubmit | aidmate/app/components/director/CaseForm.tsx:62-128 | a failed check sends nothing and shows its message; success resets the form to its initial state; a refusal or network failure keeps the form and shows a message; loading ends |
| CaseHistory.Lookup | aidmate/app/api/paramedic/history/route.ts:27-28 | the value under the name, or none exactly when the name is absent |
| CaseHistory.Query | aidmate/app/components/paramedic/CaseHistory.tsx:49-51 | a status parameter exactly when the status filter is not "all", likewise the period |
| CaseHistory.QueryReachesServer | aidmate/app/components/paramedic/CaseHistory.tsx:49-51 | the endpoint's clause filters by status and period exactly as the two selects say |
| CaseHistory.LabelOf | aidmate/app/components/paramedic/CaseHistory.tsx:193-213 | COMPLETED with a report is "Complete", without one "Incomplete"; otherwise "n notes" for n > 0, else "No notes yet" |
| CaseHistory.NoteCountCappedAtOne | aidmate/app/components/paramedic/CaseHistory.tsx:211 | as written, the count shown is never more than one |
| CaseHistory.ThreeNotesShownAsOne | aidmate/app/components/paramedic/CaseHistory.tsx:211 | a case with three notes is labelled "1 notes" |
| CaseHistory.EntryOf | aidmate/app/api/paramedic/history/route.ts:79-84 | corrected: the endpoint's row, differing from the case only in its notes, with the case's full note count beside it |
| CaseHistory.EntryLabel | aidmate/app/components/paramedic/CaseHistory.tsx:193-213 | the label reads the count beside the row; when that count is the row's own, it is the label of the row |
| CaseHistory.EntryLabelIsFaithful | aidmate/app/components/paramedic/CaseHistory.tsx:193-213 | corrected: every record is labelled as its full case would be |
| CaseHistory.Labels | aidmate/app/components/paramedic/CaseHistory.tsx:168-213 | one label per row, in order |
| CaseHistory.CaseHistoryView.constructor | aidmate/app/components/paramedic/CaseHistory.tsx:30-34 | both filters start as "all" |
| CaseHistory.CaseHistoryView.BuildQuery | aidmate/app/components/paramedic/CaseHistory.tsx:49-51 | the parameters appended one by one are the query the filters call for |
| CaseHistory.CaseHistoryView.FetchCaseHistory | aidmate/app/components/paramedic/CaseHistory.tsx:44-64 | success stores the rows and leaves the error; a failure sets "Failed to load case history"; loading ends |
| CaseHistory.CaseHistoryView.SetStatusFilter | aidmate/app/components/paramedic/CaseHistory.tsx:128 | only the status filter changes |
| CaseHistory.CaseHistoryView.SetPeriodFilter | aidmate/app/components/paramedic/CaseHistory.tsx:138 | only the period filter changes |
| CaseHistory.CaseHistoryView.Shown | aidmate/app/components/paramedic/CaseHistory.tsx:87-102 | loading first; nothing for a missing or non-paramedic session; then the error when set, the empty notice exactly when there are no rows, otherwise a label for every row |
| CaseHistory.ErrorOutlivesReload | aidmate/app/components/paramedic/CaseHistory.tsx:58-60 | after one failed load, a later successful load still shows the error |

## Left out

- The language-model call in app/api/gemini/route.ts is not modelled. Its output is an input (`Generation`), and so is the presence of the API key.
- Gemini.HandlePost: the outer catch (an unreadable request body, answered with "We're experiencing technical difficulties…") is not modelled. Neither is a query that is truthy but not a string: `query.substring` throws there and the outer catch answers (app/api/gemini/route.ts:16, 96-101). The model's query is always a string.
- Prisma is replaced by the in-memory `Store.Db`. Store failures are modelled only as a missing user record in the two user updates. The 500 replies of the other handlers ("Failed to fetch cases", "Failed to create case", …) have no counterpart.
- CasesRoute.Get: the paramedic name joined onto each case is not modelled.
- HistoryRoute.Rows: the column selection on the medical report and the joined director name are not modelled. A row keeps the whole report, and its one treatment note is the whole note, not the `id` projection the query selects (aidmate/app/api/paramedic/history/route.ts:80-83).
- Ordering.SortNewestFirst: the order among cases with equal creation times is not fixed, since the database does not fix it either.
- Authentication (`getServerSession`, `getToken`, sign-in) is not modelled. The session and token are inputs, and a role is a free string read with `Domain.RoleOf`.
- Middleware.Decide is stated for every path. The configured matcher is a separate predicate, used in the two matcher lemmas, and is not a precondition.
- HistoryRoute.StartDate: the calendar arithmetic (`setHours`, `setDate`, `setMonth`) is not modelled. The three instants are given by a `Clock`.
- AvailabilityRoute.Patch: a null or non-boolean availability value is not modelled. The handler passes it to the store unchecked.
- LocationRoute.Patch: a location that is a truthy non-string (a number, say) is not modelled.
- CaseForm.ParseInt: the conversion of a very large digit string to a double (loss of precision beyond 2^53) is not modelled.
- CasesList.CasesListView.Shown: the wording of the empty-state notice is not modelled. It carries the filter value.
- The assign, status, treatment and complete endpoints are not part of this model, and neither is the distance ranking. No server-side transition guard is assumed. The lifecycle is only what the client pages offer.
- Toasts, alerts, navigation (`router.push`), colour badges, dates formatted for display and the map picker are not modelled.
- Asynchronous interleaving and stale closures are not modelled. Each handler runs to completion as one method, with the server's reply as a parameter.
- The `loading`/`submitting` flags are set and cleared within one method. Only their final values are stated.
- Push notifications, seeding, the user pages, layout, and the C# service interfaces are outside this model.

## Findings

| source | as written | input that shows it | evidently intended | confidence | as-written member | corrected member |
|---|---|---|---|---|---|---|
| app/components/director/CasesList.tsx:265 | the table maps `filteredCases`; the page slice `currentCases` is computed but never rendered | eleven cases, filter "all": the pager reads "Page 1 of 2", yet every page shows all eleven rows | render `currentCases`, ten rows per page | high; not executed | CasesList.RenderIgnoresPage | CasesList.RenderedPagesCoverFiltered |
| aidmate/app/components/paramedic/CaseHistory.tsx:211 | "n notes" counts the notes of the history row, which the endpoint cuts to one note (aidmate/app/api/paramedic/history/route.ts:83) | an in-progress case with three treatment notes is labelled "1 notes" | show the case's real note count | high; not executed | CaseHistory.ThreeNotesShownAsOne | CaseHistory.EntryLabelIsFaithful |
| aidmate/app/components/director/CaseForm.tsx:93 | the refusal text is read from `message`, but the case endpoint sends only `error` (app/api/cases/route.ts:76-79) | a creation refused with 401 "Unauthorized" after the session expired shows "Failed to create case" | show the endpoint's `error` text | medium; not executed | CaseForm.RefusalReasonLost | CaseForm.RefusalMessage |

In each case the rest of the model uses the corrected behaviour:

- `CasesListView.Shown` renders the page slice.
- `CaseHistoryView` keeps each row together with its note count (`Entry`).
- `CaseFormView.HandleSubmit` shows the endpoint's error text.
