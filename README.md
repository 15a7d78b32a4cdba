# TalentMatch screening console — a Dafny model

This project models the candidate-screening core of TalentMatch, a recruiting console in which an HR user:

- creates jobs;
- uploads resumes that an AI service scores;
- shortlists candidates;
- emails the shortlist.

The model covers both halves of that flow.

**Browser**
- The job page (`JobsTab.jsx`) holds, for the selected job:
  - the roster sorted by score;
  - a shortlist map from candidate id to flag;
  - the ticked ids;
  - pending uploads;
  - the email compose form.
- The chat composer (`DashboardTab.jsx`) has a pending-file queue gated by the `.pdf`/`.txt` allowlist, a send guard, and an append-only transcript. Each evaluation result becomes one formatted transcript entry.
- The older job page (`sample.jsx`) sends its shortlist requests first, makes no local write, and re-fetches the roster afterwards.
- The registration form (`Register.jsx`) has its checks, its posted body and its loading flag.

**Server**
- The evaluation helpers of `backend/jobs/views.py`:
  - `truncate`;
  - JSON-span extraction;
  - the shortlist and count command parsers, with thresholds clamped to 0..100;
  - title-token job matching;
  - the per-file evaluation loop;
  - score normalisation and splitting of strengths into points;
  - the missing-field check.
- The candidate endpoints of `backend/candidates/views.py`:
  - setting the shortlist flag;
  - parsing address lists;
  - bulk email in batches of 50, in validation order.
- The stored candidate record (`backend/candidates/models.py`): its upload path, defaults and display string.

**How the model is built**
- State that a handler or view changes in place is a Dafny `class` with field-granular `modifies` clauses:
  - `JobsTab.JobsPage`;
  - `SampleJobs.SamplePage`;
  - `DashboardTab.Composer`;
  - `Register.RegisterPage`;
  - `CandidatesViews.CandidateStore`.
- Each `await` splits a handler into atomic steps. The awaited request's outcome is a parameter: `Outcome<T>` is `Done(value)` or `Failed`. For example, `BeginSelectJob` and `FinishSelectJob` are the two halves of `handleSelectJob`.
- These foreign calls are function-typed parameters:
  - the AI service, PDF text extraction and JSON parsing;
  - score conversion and storage;
  - address validation;
  - mail delivery.
- Loops of the source are methods with loop invariants, proved against specification functions:
  - `ParseEmails` and `SortTokens`, against `Partitioned`;
  - `SendBatches`, against `Batches`, `FirstFailed` and `MailsFor`;
  - `EvaluateAll`, against `EvaluateOne`;
  - `FindMatchingJob`, against `JobMatches`;
  - `BuildFlagMap`, against `FlagMap`;
  - `Summarize`, against `SummaryText`;
  - the two `UpdateStatus` request loops.
- Modules follow the source files:
  - `Common` and `Text` hold shared values and string functions;
  - `Roster` holds the candidate record shared by both job pages;
  - `CandidateModels`, `CandidatesViews`, `JobsViews`, `JobsTab`, `SampleJobs`, `DashboardTab` and `Register` hold one source file each.

## Model

| member | source | states |
|---|---|---|
| CandidateModels.ResumeUploadPath | backend/candidates/models.py:6-7 | the path starts with `candidates/job_` and ends with `/` followed by the file name |
| CandidateModels.UploadPathRoundTrip | backend/candidates/models.py:6-7 | the path determines the job id and the file name: parsing it back gives exactly both |
| CandidateModels.NewCandidateResume | backend/candidates/models.py:9-23 | a new row has score 0, is not shortlisted, has empty skills, projects, strengths and weaknesses lists, no name or email, and empty education |
| CandidateModels.DisplayName | backend/candidates/models.py:26 | the displayed name is never empty |
| CandidateModels.CandidateToString | backend/candidates/models.py:25-26 | the string form begins with the display name and ends with ` - Job ` and the job id, with nothing between the two |
| CandidateModels.DisplayNameCases | backend/candidates/models.py:26 | a non-empty stored name is shown as is; a missing or empty one is shown as `Unknown` |
| Roster.SerializedCandidate | backend/candidates/serializers.py:4-27 | the serializer's record keeps the id, score and email, and carries the stored shortlist flag as a boolean |
| Roster.OrNA | backend/jobs/views.py:541-550 | `x or "N/A"` is never empty |
| Roster.JobCandidateRecord | backend/jobs/views.py:540-553 | the job view's record keeps id and score, has a non-empty name, always has an email string, and has no `shortlisted` field |
| Roster.InsertPerm | frontend/frontend/src/components/JobsTab.jsx:79 | inserting a candidate adds exactly that one candidate and loses none |
| Roster.InsertSorted | frontend/frontend/src/components/JobsTab.jsx:79 | inserting into a roster sorted by descending score keeps it sorted |
| Roster.SortByScore | frontend/frontend/src/components/JobsTab.jsx:79 | the sorted roster is in descending score order and is a permutation of the input |
| Roster.InsertStable | frontend/frontend/src/components/JobsTab.jsx:79 | insertion keeps the order among candidates of any one score |
| Roster.SortStable | frontend/frontend/src/components/JobsTab.jsx:79 | the sort is stable: for every score, the candidates with that score appear in server order |
| Roster.Without | frontend/frontend/src/components/JobsTab.jsx:142 | removing an id drops exactly that id, keeps every other id, and preserves absence of duplicates |
| Roster.Toggled | frontend/frontend/src/components/JobsTab.jsx:140-144 | the toggled id is in the new selection iff it was not in the old one; other ids are unaffected; no duplicates are introduced |
| Roster.ToggleTwice | frontend/frontend/src/components/JobsTab.jsx:140-144 | toggling an unselected id twice restores the selection; toggling a selected id twice moves it to the end |
| Roster.WithoutAppended | frontend/frontend/src/components/JobsTab.jsx:142 | removing an id just appended to a list that lacked it gives the list back |
| Roster.ShortlistedOf | frontend/frontend/src/components/JobsTab.jsx:175-177 | the shortlisted view is an order-preserving subsequence of the roster holding exactly the candidates whose map entry is truthy |
| Roster.FlagMapKeys | frontend/frontend/src/components/JobsTab.jsx:86-89 | the map has exactly one key per roster id |
| Roster.FlagMapValues | frontend/frontend/src/components/JobsTab.jsx:86-89 | with distinct ids, each entry is computed from that candidate's own field |
| Roster.FlagMapFrom | frontend/frontend/src/components/JobsTab.jsx:86-89 | every entry of the map comes from some candidate carrying that id |
| Roster.BuildFlagMap | frontend/frontend/src/components/JobsTab.jsx:86-90 | the `forEach` loop builds exactly the map `FlagMap` describes |
| Roster.StrictlyTrue | frontend/frontend/src/components/sample.jsx:47 | the normalised entry is a boolean, and it is true only for a truthy field |
| JobsTab.BaseName | frontend/frontend/src/components/JobsTab.jsx:106 | the pending name is the prefix of the file name before its first dot: a prefix with no dot, followed by a dot or by the end of the name |
| JobsTab.Filtered | frontend/frontend/src/components/JobsTab.jsx:207-213 | the filtered table is an order-preserving subsequence of the roster; it holds every row that matches the query, experience and score filters and only such rows |
| JobsTab.ShortlistedRows | frontend/frontend/src/components/JobsTab.jsx:539-540 | the shortlisted table is an order-preserving subsequence of the roster holding exactly the rows that pass the filters and are truthily shortlisted |
| JobsTab.FilterNarrowing | frontend/frontend/src/components/JobsTab.jsx:207-213 | setting more or stricter filters never adds rows: the result is a subsequence of the looser filter's result |
| JobsTab.NoFilterShowsAll | frontend/frontend/src/components/JobsTab.jsx:207-213 | with no query and no filter, every row is shown, in order |
| JobsTab.SelectAllLengthTestCounterexample | frontend/frontend/src/components/JobsTab.jsx:401-404 | the length test marks the header box checked for a selection holding none of the shown rows |
| JobsTab.SelectAllThenChecked | frontend/frontend/src/components/JobsTab.jsx:394-404 | after ticking the header box, both the length test and the intended test report all shown rows selected |
| JobsTab.SelectAllExactWhenInside | frontend/frontend/src/components/JobsTab.jsx:401-404 | when the selection has no duplicates and holds only shown ids, the length test agrees with the intended test in both directions |
| JobsTab.ScoreBand | frontend/frontend/src/components/JobsTab.jsx:423-430 | the scores table shows red up to 40, yellow from 41 to 70, green above 70, each band exactly |
| JobsTab.ShortlistBand | frontend/frontend/src/components/JobsTab.jsx:554-558 | the shortlist table shows green from 85, blue from 70 to 84, yellow below 70, each band exactly |
| JobsTab.BandsMonotone | frontend/frontend/src/components/JobsTab.jsx:423-430 | in both tables a higher score never gets a lower band |
| JobsTab.FlipAllEffect | frontend/frontend/src/components/JobsTab.jsx:151-155 | each ticked id's entry becomes the negation of its old truthiness, the keys grow by the ticked ids, and every other entry is unchanged |
| JobsTab.FlipTwice | frontend/frontend/src/components/JobsTab.jsx:151-155 | flipping the same ticked ids twice restores every entry's truthiness |
| JobsTab.FirstFailure | frontend/frontend/src/components/JobsTab.jsx:158-162 | the index of the first failed request: every earlier request succeeded and that one failed |
| JobsTab.Attempts | frontend/frontend/src/components/JobsTab.jsx:158-162 | a loop stopping at the first failure issues the requests up to and including the first failing one, and all of them when none fails; it issues all iff none but possibly the last fails |
| JobsTab.Recipients | frontend/frontend/src/components/JobsTab.jsx:175-177 | the recipients are the shortlisted rows' addresses, one per row, in roster order |
| JobsTab.JobsPage.constructor | frontend/frontend/src/components/JobsTab.jsx:8-40 | the page starts with no job, the info tab, empty containers and a blank email form |
| JobsTab.JobsPage.BeginSelectJob | frontend/frontend/src/components/JobsTab.jsx:70-78 | selecting a job empties the roster, pending uploads, selection and map before requesting that job's roster |
| JobsTab.JobsPage.FinishSelectJob | frontend/frontend/src/components/JobsTab.jsx:78-97 | on success the roster is the sorted response and the map is built from it; on failure the roster is empty; stale responses are not discarded |
| JobsTab.StaleResponseScenario | frontend/frontend/src/components/JobsTab.jsx:78-97 | for any two jobs selected in turn whose responses arrive in reverse order, the second job stays selected while the first job's roster and shortlist map are shown |
| JobsTab.JobsPage.FileUpload | frontend/frontend/src/components/JobsTab.jsx:100-111 | without a job only an alert; otherwise the picked files go in front of the pending list |
| JobsTab.JobsPage.EvaluateResumes | frontend/frontend/src/components/JobsTab.jsx:113-132 | with no pending file, an alert and no request; otherwise every pending file is posted with the job id; pending files are cleared only when both requests succeed; the success alert is the server's reply, or "Evaluation completed" when the reply is missing or empty |
| JobsTab.JobsPage.ToggleSelect | frontend/frontend/src/components/JobsTab.jsx:140-144 | the selection becomes the toggled selection |
| JobsTab.JobsPage.SelectAll | frontend/frontend/src/components/JobsTab.jsx:394-400 | ticking selects exactly the shown rows' ids in table order; unticking clears the selection |
| JobsTab.JobsPage.UpdateStatus | frontend/frontend/src/components/JobsTab.jsx:146-169 | the map is flipped optimistically and never rolled back; requests go out in selection order carrying the new values and stop at the first failure; the selection is cleared iff all succeed |
| JobsTab.JobsPage.SendEmail | frontend/frontend/src/components/JobsTab.jsx:174-194 | with nobody shortlisted, an alert only; otherwise the form's `to` is the recipients joined by `, `, other fields blank, modal open |
| JobsTab.JobsPage.SendFinalEmail | frontend/frontend/src/components/JobsTab.jsx:42-67 | the form and attachments are sent; only success closes the modal and drops the attachments |
| JobsViews.Clamp | backend/jobs/views.py:142 | the result lies in 0..100, equals the input inside that range, and is 0 below it and 100 above it |
| JobsViews.Head | backend/jobs/views.py:96 | `text[:n]` is a prefix of length min(n, length) |
| JobsViews.Tail | backend/jobs/views.py:96 | `text[-n:]` is a suffix of length min(n, length) |
| JobsViews.Truncate | backend/jobs/views.py:93-96 | short text is unchanged; long text becomes its first 7000 characters, the ellipsis line and its last 6000 characters |
| JobsViews.TruncateDefault | backend/jobs/views.py:93-96 | with the default limit the result has at most 15000 characters, truncation is idempotent, and a long text becomes exactly 13005 characters |
| JobsViews.TruncateSmallLimit | backend/jobs/views.py:93-96 | with a limit below a text of at most 6000 characters, the "truncated" text contains the whole text twice |
| JobsViews.GreedySpan | backend/jobs/views.py:65 | a greedy `open .* close` match exists iff some `open` precedes some `close`, and it runs from the first `open` to the last `close` |
| JobsViews.LazySpan | backend/jobs/views.py:116 | a lazy match exists under the same condition, and it contains no `close` before its last character |
| JobsViews.LazyPrefixOfGreedy | backend/jobs/views.py:116 | the lazy match is a prefix of the greedy match |
| JobsViews.RemoveAllAbsent | backend/jobs/views.py:67 | removing fences never introduces a character that was absent |
| JobsViews.SpanOfSlice | backend/jobs/views.py:67-68 | a brace span in a slice of the text is a span of the text |
| JobsViews.RemoveAllKeepsNoSpan | backend/jobs/views.py:67 | removing fences never creates a brace span |
| JobsViews.CleanedHasNoNewSpan | backend/jobs/views.py:66-68 | the fallback search on the fence-stripped text cannot succeed where the first search failed |
| JobsViews.ExtractJson | backend/jobs/views.py:61-72 | empty text or text with no brace span gives nothing; otherwise the result is the parse of the greedy brace span |
| JobsViews.ExtractArray | backend/jobs/views.py:74-81 | with no bracket span the result is `[]`; otherwise it is the parse of the greedy bracket span, or `[]` when parsing fails |
| JobsViews.CleanJsonArray | backend/jobs/views.py:115-122 | the same, with the lazy bracket span |
| JobsViews.ParseShortlistCommand | backend/jobs/views.py:124-148 | empty text or no digit capture gives `(None, False)`; a threshold lies in 0..100 and comes with the verb flag; there is no apply flag without a threshold |
| JobsViews.ShortlistThreshold | backend/jobs/views.py:137-142 | a captured number n gives the threshold min(n, 100) |
| JobsViews.ParseCountCommand | backend/jobs/views.py:150-176 | a count query always yields a command, a total one without an `above` capture; otherwise only a direct `above` capture yields a command; thresholds lie in 0..100 |
| JobsViews.CountThreshold | backend/jobs/views.py:159-173 | on either path a captured number n gives the threshold min(n, 100) |
| JobsViews.TitleTokens | backend/jobs/views.py:188 | the title's tokens are longer than two characters and made of word characters |
| JobsViews.MatchCountPositive | backend/jobs/views.py:191-192 | the match count is positive iff some token occurs in the message |
| JobsViews.FindMatchingJob | backend/jobs/views.py:178-194 | for jobs given by descending id, nothing is found iff no job's title matches; otherwise the result is the first job in that order whose title matches, which is the matching job with the highest id |
| JobsViews.TitleMatches | backend/jobs/views.py:188-192 | the per-job test of the loop decides exactly whether the title matches the message |
| JobsViews.CountMatches | backend/jobs/views.py:191 | the counting loop computes the match count |
| JobsViews.EmptyMessageMatchesNothing | backend/jobs/views.py:184-192 | a missing or empty message matches no job |
| JobsViews.ResolveJob | backend/jobs/views.py:203-214 | a given id resolves iff the lookup finds it; without an id the latest job is used; a failure replies "not found" or "create a job first" accordingly; a lookup raising anything but `Job.DoesNotExist` (a non-integer id) is left uncaught |
| JobsViews.NormalizeScore | backend/jobs/views.py:276-281 | the score lies in 0..100; a missing or unconvertible score is 0; a converted score is kept when in range, 0 below it and 100 above it |
| JobsViews.SplitPoints | backend/jobs/views.py:286 | every point is non-empty, trimmed and free of newline, `;` and `.` |
| JobsViews.SplitPointsJoin | backend/jobs/views.py:286-288 | splitting trimmed, separator-free points joined by a separator gives the points back |
| JobsViews.Points | backend/jobs/views.py:283-288 | a string becomes a list with one item per point; any other value is kept |
| JobsViews.StoredFor | backend/jobs/views.py:291-301 | the stored row belongs to the job, has a score in 0..100, and has a truthy name that falls back to `Unknown` |
| JobsViews.EvaluateOne | backend/jobs/views.py:222-317 | each file yields a result under its own name; a wrong extension gives "Unsupported file type" and stores nothing; a row is stored only when its creation succeeds, and every scored file has one; a row whose file save then fails stays, with the result "Server error processing file."; a scored result reports the stored score, name and email |
| JobsViews.PromptTextBounded | backend/jobs/views.py:237 | the resume text put in the prompt has at most 15000 characters |
| JobsViews.Created | backend/jobs/views.py:291-301 | at most one row is stored per upload |
| JobsViews.StoredBy | backend/jobs/views.py:291-301 | at most one row is stored per upload, whatever the per-file step |
| JobsViews.EvaluateAll | backend/jobs/views.py:217-319 | exactly one result per upload, in upload order, each the file's own evaluation; the created rows are those of `Created`, each for the resolved job with a score in 0..100; the reply counts the results |
| JobsViews.CreatedForJob | backend/jobs/views.py:291-306 | every created row, including one whose file save failed, belongs to the resolved job and has a score in 0..100 |
| JobsViews.EvaluateEach | backend/jobs/views.py:222-317 | for any per-file step, the loop yields that step's result for each upload, in order, and collects the rows the step stores |
| JobsViews.ResumeBranch | backend/jobs/views.py:196-319 | an unresolved job gives a 404 with the matching reply and stores nothing; a lookup that raises otherwise gives a bare 500 and stores nothing; a resolved job gives a 200 with one result per upload |
| JobsViews.MissingFields | backend/jobs/views.py:444 | the missing fields are a subsequence of the required list, holding exactly the required fields that are absent or falsy |
| JobsViews.NothingMissingIff | backend/jobs/views.py:444-445 | nothing is missing iff every required field is present |
| JobsViews.CreationStepFor | backend/jobs/views.py:444-448 | creation proceeds iff every required field is present; otherwise the reply asks for exactly the missing ones |
| CandidatesViews.SetFlag | backend/candidates/views.py:12 | only the addressed row changes, and its flag becomes the given value |
| CandidatesViews.SetFlagIdempotent | backend/candidates/views.py:12 | repeating the same request changes nothing further |
| CandidatesViews.SetFlagUnchanged | backend/candidates/views.py:12 | setting the value a flag already has leaves the table unchanged |
| CandidatesViews.CandidateStore.constructor | backend/candidates/views.py:11 | the store holds the given rows |
| CandidatesViews.CandidateStore.SetShortlisted | backend/candidates/views.py:9-24 | an unknown id is a 404 and changes nothing; otherwise the flag becomes the posted value, false when absent, and the reply echoes it |
| CandidatesViews.RepeatedSetScenario | backend/candidates/views.py:9-24 | sending the same value twice gives the same reply both times and leaves the table as one request does |
| CandidatesViews.EmailTokens | backend/candidates/views.py:65 | every token is non-empty, trimmed and comma-free |
| CandidatesViews.BlankHasNoTokens | backend/candidates/views.py:62-65 | blank input has no tokens, so the early return agrees with the general case |
| CandidatesViews.PartitionedSplitsTokens | backend/candidates/views.py:61-76 | the valid and invalid lists together hold every token exactly once, each in input order, valid ones passing and invalid ones failing validation |
| CandidatesViews.PartitionedIsFilter | backend/candidates/views.py:61-76 | the early return on blank input agrees with filtering the token list both ways |
| CandidatesViews.SplitsTokens | backend/candidates/views.py:67-76 | filtering by the validator and by its negation splits a token list into two order-preserving parts that together hold each token once, the second holding only failing tokens |
| CandidatesViews.ParseEmails | backend/candidates/views.py:61-76 | `_parse_emails` returns exactly the partition of the tokens; absent or blank input gives two empty lists |
| CandidatesViews.SortTokens | backend/candidates/views.py:69-74 | the validation loop puts the passing tokens in `valid` and the failing ones in `invalid`, in order |
| CandidatesViews.TokensOfJoined | backend/candidates/views.py:65 | addresses joined with `, ` by the job page parse back into the same list, when each is non-empty, trimmed and comma-free |
| CandidatesViews.Batches | backend/candidates/views.py:127-128 | there are ceil(n/50) batches, each of 1 to 50 addresses |
| CandidatesViews.FlattenBatches | backend/candidates/views.py:127-128 | the batches cover the list exactly, in order |
| CandidatesViews.BatchAt | backend/candidates/views.py:127-128 | batch k is the slice starting at 50k, at most 50 long |
| CandidatesViews.FirstFailed | backend/candidates/views.py:120-150 | the index of the first batch whose delivery raises: every earlier batch was delivered |
| CandidatesViews.MailsFor | backend/candidates/views.py:135-143 | one message per batch, each carrying that batch as To and the full CC and BCC lists |
| CandidatesViews.SendBulkEmail | backend/candidates/views.py:78-155 | a blank subject, then a blank message, then any invalid address in any field, rejects the request and sends nothing; otherwise batches go out until the first failure |
| CandidatesViews.SendBatches | backend/candidates/views.py:117-153 | success iff every batch is delivered; on success all To addresses are counted; on failure the count is 50 per delivered batch; the messages built are those of the batches up to and including the failed one |
| CandidatesViews.BatchStep | backend/candidates/views.py:127-143 | while 50k is an index, batch k is the slice from 50k and adds one message, carrying that slice, to the plan |
| CandidatesViews.CcCopiesPerBatch | backend/candidates/views.py:140-141 | a CC address receives one copy per batch |
| CandidatesViews.CcOnlySendsNothing | backend/candidates/views.py:127-133 | with CC addresses but no To address, no message is sent and no CC address is reached |
| CandidatesViews.IntendedReachesAll | backend/candidates/views.py:129-131 | under the intended plan every To, CC and BCC address is reached |
| SampleJobs.SamplePage.constructor | frontend/frontend/src/components/sample.jsx:7-12 | the page starts with no job, the info tab, and an empty roster, map and selection |
| SampleJobs.SamplePage.BeginSelectJob | frontend/frontend/src/components/sample.jsx:33-40 | selecting a job empties the roster and the map, but not the selection |
| SampleJobs.SamplePage.FinishSelectJob | frontend/frontend/src/components/sample.jsx:40-53 | on success the roster is the sorted response and the map holds only the `1`/`true` normalised flags; on failure nothing changes |
| SampleJobs.SamplePage.ToggleSelection | frontend/frontend/src/components/sample.jsx:89-95 | the selection becomes the toggled selection and stays free of duplicates |
| SampleJobs.SamplePage.UpdateStatus | frontend/frontend/src/components/sample.jsx:59-84 | with an empty selection nothing happens; requests carry the negated entries in order, stop at the first failure, and write nothing locally; the re-fetch happens iff all succeed with a job selected, and installs roster, raw map and empty selection; on any failure all three are unchanged |
| SampleJobs.LoadedShortlist | frontend/frontend/src/components/sample.jsx:44-48 | after a load the map has one boolean entry per id; with distinct ids an entry is true iff the field was exactly `1` or `true` |
| SampleJobs.ShownIffMarked | frontend/frontend/src/components/sample.jsx:204-208 | a roster row is on the shortlisted tab iff its map entry is truthy |
| SampleJobs.JobViewRecordsUnmarked | backend/jobs/views.py:540-553 | every record of the job view's roster lacks the `shortlisted` field |
| SampleJobs.ShortlistLostOnLoad | frontend/frontend/src/components/sample.jsx:40-48 | from the job view's records the shortlisted view is empty after a load and after a reload, whatever is stored |
| SampleJobs.ShortlistLostExample | frontend/frontend/src/components/sample.jsx:40-48 | a row stored as shortlisted is missing from the view after loading |
| SampleJobs.SerializedShortlistKept | frontend/frontend/src/components/sample.jsx:44-48 | loading the serializer's records instead shows a row iff it is stored as shortlisted |
| DashboardTab.RemoveAt | frontend/frontend/src/components/DashboardTab.jsx:63-65 | removing index i drops exactly that file and keeps the others in order; an index outside the list removes nothing |
| DashboardTab.UserEntries | frontend/frontend/src/components/DashboardTab.jsx:71-77 | one user entry for non-blank input (the raw input) and one listing the file names, in that order |
| DashboardTab.Replies | frontend/frontend/src/components/DashboardTab.jsx:99-136 | all replies are from the AI; a failure gives the server-error entry; a result list gives one entry per result, in order; otherwise the reply text, or the fallback text when it is empty |
| DashboardTab.RepliesNonEmpty | frontend/frontend/src/components/DashboardTab.jsx:99-130 | a send appends at least one AI entry unless the server returns an empty result list |
| DashboardTab.SummaryBulletLines | frontend/frontend/src/components/DashboardTab.jsx:110-122 | the summary has exactly one bullet per strength and per weakness |
| DashboardTab.SummaryStartsWithScore | frontend/frontend/src/components/DashboardTab.jsx:110 | the summary begins with the file name and score line |
| DashboardTab.BulletsCount | frontend/frontend/src/components/DashboardTab.jsx:117 | a bullet list has one bullet per item |
| DashboardTab.SectionCount | frontend/frontend/src/components/DashboardTab.jsx:115-118 | a titled section has one bullet per item |
| DashboardTab.Summarize | frontend/frontend/src/components/DashboardTab.jsx:109-123 | the string-building steps produce the summary text |
| DashboardTab.AppendDetails | frontend/frontend/src/components/DashboardTab.jsx:111-114 | the `if` chain appends exactly the name, email and skills lines present |
| DashboardTab.AppendSection | frontend/frontend/src/components/DashboardTab.jsx:115-118 | the `forEach` appending bullets extends the text by the section |
| DashboardTab.EntryFor | frontend/frontend/src/components/DashboardTab.jsx:103-124 | one result's entry is its error notice, or the readable summary built step by step |
| DashboardTab.Composer.constructor | frontend/frontend/src/components/DashboardTab.jsx:7-10 | the composer starts with an empty transcript, input and file queue, not loading |
| DashboardTab.Composer.FileChange | frontend/frontend/src/components/DashboardTab.jsx:34-43 | the accepted files are appended in order; the alert is raised iff some file is rejected |
| DashboardTab.Composer.Drop | frontend/frontend/src/components/DashboardTab.jsx:51-60 | the same for dropped files, with the shorter alert |
| DashboardTab.Composer.RemoveFile | frontend/frontend/src/components/DashboardTab.jsx:63-65 | the queue loses the file at the index |
| DashboardTab.Composer.BeginSend | frontend/frontend/src/components/DashboardTab.jsx:67-96 | blank input with no files changes nothing; otherwise the user entries are appended, the input is cleared, loading starts, and the message (when non-empty) and files are posted |
| DashboardTab.WhitespaceWithFileScenario | frontend/frontend/src/components/DashboardTab.jsx:67-96 | for any whitespace-only input sent with a file, the transcript gains only the upload notice while the request still carries the whitespace as its message |
| DashboardTab.Composer.FinishSend | frontend/frontend/src/components/DashboardTab.jsx:98-141 | the replies are appended after the entries, loading stops and the file queue is cleared, whatever the outcome |
| DashboardTab.Composer.AppendResults | frontend/frontend/src/components/DashboardTab.jsx:102-125 | the `forEach` appends one AI entry per result, in order, after the existing transcript |
| Register.Validate | frontend/frontend/src/pages/Register.jsx:18-37 | a mismatch is refused first, then a missing required field; the form is accepted iff neither holds, and the body carries the five inputs under their keys |
| Register.OptionalFieldsIgnored | frontend/frontend/src/pages/Register.jsx:23 | organisation and phone never decide acceptance |
| Register.PayloadRoundTrip | frontend/frontend/src/pages/Register.jsx:31-37 | the body read back from its own form is the same body, and that form is accepted iff the required keys are non-empty |
| Register.AcceptedFormIsFormOfPayload | frontend/frontend/src/pages/Register.jsx:31-37 | an accepted form is recovered from its body |
| Register.RegisterPage.constructor | frontend/frontend/src/pages/Register.jsx:13 | the page starts not loading and not navigated |
| Register.RegisterPage.BeginSubmit | frontend/frontend/src/pages/Register.jsx:15-39 | a refused form alerts, sends nothing and leaves the flag alone; an accepted form sets the flag and posts its body |
| Register.MismatchScenario | frontend/frontend/src/pages/Register.jsx:18-21 | any form the browser lets through whose passwords differ gets the mismatch alert, posts nothing and does not start loading |
| Register.RegisterPage.FinishSubmit | frontend/frontend/src/pages/Register.jsx:39-47 | success alerts and navigates to `/`; failure alerts only; the flag is cleared either way |
| Text.Strip | backend/candidates/views.py:82-83 | the stripped text is the slice between the first and last non-whitespace characters, and empty when there is none; whitespace is Python's (including U+001C to U+001F) for `strip()` and JavaScript's for `trim()` |
| Text.StripKindsAgree | frontend/frontend/src/components/DashboardTab.jsx:68 | on text without U+001C to U+001F, JavaScript's `trim()` and Python's `strip()` agree |
| Text.InfoSeparatorStripped | backend/candidates/views.py:82 | Python strips a lone U+001C to nothing, and JavaScript keeps it |
| Text.StripEmptyIff | backend/candidates/views.py:62 | stripping gives the empty string iff the text is all whitespace |
| Text.SplitJoin | backend/candidates/views.py:65 | splitting on a separator undoes joining with it when no piece holds a separator |
| Text.ParseNatToString | backend/jobs/views.py:141 | reading back a number's decimal form gives the number |

## Left out

- Network, time and randomness. Every HTTP request and every `await` is a parameter, and so are `Date.now` ids, file sizes and `uuid4` file names.
- The AI service, PDF text extraction, `json.loads`, `int(float(x))` and `validate_email`. All are function parameters; `EmailTokens` and the command parsers see only their results.
- Regular-expression engines. The command parsers take the regex captures and the verb test as inputs. The JSON-span searches are modelled on characters.
- The ORM. Job lookup and the latest job are parameters. Creating an evaluation's row and saving its file into it are two parameters; `Created` collects the rows created. The candidate table is the `CandidateStore` map. `CandidateListView`, `JobsListAPIView` and `HRStatsView` are not modelled.
- SMTP and rendering. `delivered(k)` says whether batch k goes through. The body rendering (`render_to_string`, `strip_tags`) and reading the attachments are not modelled.
- The chat branch of the evaluation view, beyond the command parsers, the job matching and the missing-field check. Not modelled: greetings, the class-level `conversation` list, job creation by the AI service, skill generation, and running the shortlist/count commands against the database.
- Rendering-only state: modals, tabs other than their reset, the drag highlight, the resume preview, stats, `handleKeyPress` (it only calls the send handler) and `fetchJobs`.
- Concurrency. Handlers interleave only at the modelled `await` boundaries. Two `UpdateStatus` runs at once, or React's batching of setters, are not modelled.
- Unicode. `ToLower`, whitespace and decimal digits are ASCII-only, and strings are sequences of characters. Within ASCII, Python's `strip()` and JavaScript's `trim()` are told apart (`Text.Space`).
- JobsViews.TitleTokens: does not state that the tokens are lower-case, only their length and alphabet. Python's `\w` is decided on ASCII only: every non-ASCII character counts as a word character, so a title such as "Senior—Engineer" (an em dash) is one token here and two in Python.
- Roster.SerializedCandidate: the serializer sends a missing candidate name as JSON null; the record reads it as "", whereas the job page's search box would throw on `null.toLowerCase()` once a query is typed. Rows created by the evaluation view always have a name (`or "Unknown"`).
- Register.RegisterPage.BeginSubmit: the browser's own form validation is not modelled. The inputs for full name, email, password and confirmation are `required` and the email input is `type="email"`, so the browser blocks an empty or malformed one before `handleSubmit` runs; `BeginSubmit` takes every form `handleSubmit` could see, including those.
- JobsViews.ParseShortlistCommand: a threshold capture is read as ASCII digits only. Python's `\d` and `int()` also accept the other Unicode decimal digits, so a capture such as "٦٥" gives 65 in Python and no threshold here.
- JobsViews.ParseCountCommand: likewise, a capture of non-ASCII decimal digits falls back to `Total` or to no command here, where Python returns the threshold.
- JobsViews.Points: states the number of points, not their text; the text is stated by `SplitPoints`.
- JobsViews.Created: states only that at most one row is stored per upload, because storing is a parameter.
- CandidatesViews.SendBulkEmail: the failure response's `errors` list is not modelled, nor a failure while reading attachments (which would give success false with nothing sent).
- CandidatesViews.CandidateStore.SetShortlisted: the posted value is taken as a boolean or absent; Django's coercion of other values is not modelled.

## Findings

| source | as written | input that shows it | evidently intended | confidence | as-written member | corrected member |
|---|---|---|---|---|---|---|
| frontend/frontend/src/components/JobsTab.jsx:401-404 | the header box is checked when the selection is as long as the shown rows | one shown row with id 1, selection `[2]` | checked only when every shown row is selected | not executed | JobsTab.SelectAllLengthTestCounterexample | JobsTab.SelectAllExactWhenInside |
| backend/candidates/views.py:127-133 | the CC/BCC-only branch sits inside a loop over the To addresses, which never runs without To addresses | `to` empty, `cc` = one valid address | one message to the CC and BCC addresses | not executed | CandidatesViews.CcOnlySendsNothing | CandidatesViews.IntendedReachesAll |
| frontend/frontend/src/components/sample.jsx:40-48 | the roster is loaded from the job view, whose records have no `shortlisted` field, so every map entry is false | one stored row with `shortlisted` true | load the serializer's records, which carry the stored flag | not executed | SampleJobs.ShortlistLostExample | SampleJobs.SerializedShortlistKept |
