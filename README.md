# GradeAI core in Dafny

GradeAI grades handwritten assignments. A teacher configures, per subject,
a model answer (typed text or uploaded documents) and optionally a question
paper. A student stages photographed answer pages and starts a run. The run
converts the pages to base64, animates five processing stages, and sends one
multimodal request to a grading model. It then shows the report and hands a
new submission to the app, or shows a generic error. The app keeps the
configurations and submissions in two browser-storage keys. The teacher sees
the subject's submissions and their average. `services/utils.ts` can also
build a CSV report of submissions, but no screen calls it.

This project models that core and proves properties of it:

- `Types` (`types.ts`) holds the shared records. String unions become
  enumerations, each with its literal spelling and a parser back from it.
- `Gemini` (`services/gemini.ts`) covers the request, built push by push,
  proved equal to a block-wise specification `RequestSpec`, with its layout
  stated position by position; and the reply check.
- `Utils` (`services/utils.ts`) covers the base64 conversion, the question
  columns (the `Set` and the sort), and the CSV text, built line by line and
  proved equal to `ReportBody`.
- `StudentDashboard` (`components/StudentDashboard.tsx`) is a class with the
  component's five state variables. `RunPipeline` is proved against the run
  specification `RunSpec`. A ghost event log records every displayed step and
  every request sent, interleaved in the order they happen, each with the
  processing flag at that moment.
- `TeacherDashboard` (`components/TeacherDashboard.tsx`) covers the subject
  filter, the rounded average, the score bands, and the configuration edits.
- `App` (`App.tsx`) covers the seed data, the loaders, the persistence
  effects and the handlers, as the class `AppStore` over a storage map.
- `ProcessingPipeline` (`components/ProcessingPipeline.tsx`) covers the step
  table and the completed / active / pending choice of colour and icon.
- `LoginScreen` (`components/LoginScreen.tsx`) covers the form's ordered
  checks and its state.

`Wrappers`, `Strings` and `Lists` are helpers: `Option`/`Result`, the
JavaScript string operations the core uses (`trim`, `split`, the quote
escaping, `toString` of integers), and `filter`.

Facts about the code that shape the model:

- `AttachedFile` carries only the base64 `data`; there is no remote
  reference form. One failed conversion rejects the whole `Promise.all` of a
  run.
- The subject list is fixed at four subjects; nothing adds a subject.
- `AssessmentResult` does not declare `questionGrades`, and the reply schema
  does not ask for it, but the report reads it when present. The model
  carries it as an optional field.
- A submission whose timestamp is the invalid date is stored with `null`,
  which reloads as the epoch. `App.SubmissionsRoundTrip` states exactly this.

## Model

| member | source | states |
|---|---|---|
| Types.AllSteps | types.ts:11-20 | the eight steps, each exactly once, each at its declaration position |
| Types.StepOrdinalInjective | types.ts:11-20 | two steps share a declaration position only if they are the same step |
| Types.ParseStep | types.ts:11-20 | a string parses to a step exactly when it is that step's string value |
| Types.ParseRole | types.ts:29 | only "teacher" and "student" parse, each to the role it spells |
| Types.AllSubjects | types.ts:31 | the four subjects, each once, with pairwise different names |
| Types.ParseSubject | types.ts:31 | a subject name parses back to that subject |
| Types.ParseMode | types.ts:50 | only "text" and "file" parse, each to the mode it spells |
| Strings.BlankIffAllWhitespace | components/StudentDashboard.tsx:63 | `trim()` yields the empty string exactly when every character is white space |
| Strings.SplitTwoFields | services/utils.ts:10 | splitting `a,b` on the separator, with neither part holding it, gives exactly `[a, b]` |
| Strings.DoubleQuotesRoundTrip | services/utils.ts:64 | doubling every quote can be undone, and adds one character per quote |
| Strings.QuoteFieldRoundTrip | services/utils.ts:64 | the quoted feedback field unquotes back to the original feedback |
| Strings.IntToStringRoundTrip | components/StudentDashboard.tsx:108 | the decimal text of any integer parses back to that integer |
| Strings.NatToStringInjective | components/TeacherDashboard.tsx:46 | different naturals have different decimal texts |
| Lists.Filter | components/StudentDashboard.tsx:55 | keeps exactly the accepted elements, each as often as in the input |
| Lists.FilterIsSubsequence | components/TeacherDashboard.tsx:33 | the kept elements stay in their original order |
| Utils.StripHeaderOfDataUrl | services/utils.ts:9-11 | for a data URL `prefix,payload` with no other comma, the stripped value is the payload |
| Utils.StripHeaderWithoutComma | services/utils.ts:10 | a text without a comma has no second field |
| Utils.FileToBase64 | services/utils.ts:3-18 | a non-string reader result rejects with the conversion message; a reader error rejects with that error; success is exactly a string result with a second comma field, and yields that field |
| Utils.GetMimeType | services/utils.ts:20-22 | the MIME type is the file's declared type, unchanged |
| Utils.UploadFileToFirebase | services/utils.ts:25-27 | the disabled upload always resolves with undefined |
| Utils.GradeNumbers | services/utils.ts:33-34 | a submission without grades contributes no question number |
| Utils.AddQuestions | services/utils.ts:34 | the inner loop leaves the Set as the specification `AddAll` of all the numbers |
| Utils.CollectQuestionNumbers | services/utils.ts:31-36 | the loop over the submissions yields the specification `Collected` |
| Utils.AddAllContents | services/utils.ts:31-36 | adding to a Set keeps it free of duplicates and yields the union of the old contents and the numbers added |
| Utils.CollectedIsUnion | services/utils.ts:31-36 | the question columns are exactly the numbers some submission lists, each once |
| Utils.Insert | services/utils.ts:38-40 | inserting adds exactly that element to the multiset |
| Utils.SortBy | services/utils.ts:38-40 | sorting is a permutation of the collected numbers |
| Utils.InsertSorted | services/utils.ts:38-40 | under a total preorder, inserting into a sorted list keeps it sorted |
| Utils.SortBySorted | services/utils.ts:38-40 | under a total preorder, the sorted columns are in comparator order and are a permutation of the input |
| Utils.InsertKeepsTies | services/utils.ts:38-40 | inserting never moves an element past one the comparator ties with it: tied values keep their order |
| Utils.SortByStable | services/utils.ts:38-40 | the sort is stable: values the comparator ties keep their input order among themselves |
| Utils.HeaderFields | services/utils.ts:44-50 | the three fixed columns, one `Q<n> Marks` column per sorted question in order, then Remarks |
| Utils.FindGrade | services/utils.ts:59 | finds a grade exactly when some grade has that question number; the one found is the first grade with that number |
| Utils.MarkCells | services/utils.ts:58-61 | one cell per sorted question, the j-th for the j-th question |
| Utils.IntToStringIsNotMarker | services/utils.ts:60 | no mark's text equals the not-attempted marker |
| Utils.MarkCellMeaning | services/utils.ts:58-61 | a cell is the marker exactly when the submission has no grade for that question; otherwise it shows the obtained marks of the first grade listed for that question |
| Utils.RowShape | services/utils.ts:63-72 | a graded row has as many fields as the header, its mark cells follow the columns, and its last field unquotes to the feedback |
| Utils.WriteRows | services/utils.ts:51-74 | the header line and then the row loop produce the specification `ReportBody`, stopping where a row throws |
| Utils.GenerateReport | services/utils.ts:29-75 | the whole CSV text is the specification `ReportText` of the submissions |
| Utils.ReportStaysFailed | services/utils.ts:54-74 | once a row has thrown, no later row produces a report |
| Utils.ReportFailsOnEmptyRecord | services/utils.ts:64 | the report fails exactly when some submission carries the empty seed result, whose feedback is undefined |
| Utils.ReportLines | services/utils.ts:51-73 | the report starts with the prefix and the header line, and each row adds its CRLF-terminated line at the end |
| Gemini.InlineAll | services/gemini.ts:37-44 | one inline segment per file, in list order |
| Gemini.StudentParts | services/gemini.ts:66-74 | page i contributes its label `Part i+1/n` and then its data, at positions 2i and 2i+1 |
| Gemini.PushFiles | services/gemini.ts:50-57 | the push loop appends exactly the inline segments of the files |
| Gemini.PushPages | services/gemini.ts:66-74 | the push loop appends exactly the labelled pages |
| Gemini.BuildContentParts | services/gemini.ts:12-74 | the pushed parts are exactly the request specification `RequestSpec` |
| Gemini.RequestOpening | services/gemini.ts:15-45 | the request opens with the instructions, the model-answer header and the model-answer block; its length is the sum of its blocks |
| Gemini.StudentHeaderLayout | services/gemini.ts:61 | the student header stands right after the question-paper block |
| Gemini.TextModeLayout | services/gemini.ts:33-34 | in text mode the answer text follows the header, and the model-answer files do not affect the request |
| Gemini.FileModeLayout | services/gemini.ts:35-45 | in file mode the reference-to-documents text follows the header, then each model-answer file in order |
| Gemini.QuestionPaperPresent | services/gemini.ts:48-58 | with a question paper, its header and then each of its files follow the model-answer block |
| Gemini.QuestionPaperAbsent | services/gemini.ts:48 | without a question paper, no question-paper header appears and the student header comes next |
| Gemini.QuestionPaperLayout | services/gemini.ts:48-58 | the question-paper header appears exactly when there is a question paper, followed by its files |
| Gemini.ContinuousNoteLayout | services/gemini.ts:62-64 | the continuous-answer note follows the student header exactly when there are several pages |
| Gemini.PagesLayout | services/gemini.ts:66-74 | each student page is its label immediately followed by its data, in input order |
| Gemini.SegmentCount | services/gemini.ts:28-74 | the number of segments, block by block |
| Gemini.PartLabelsDistinct | services/gemini.ts:67 | different pages of one submission get different labels |
| Gemini.CheckReply | services/gemini.ts:127-135 | success exactly for a parsed reply, returned unchanged; no text gives the no-response error; a thrown error is rethrown |
| Gemini.AssessAssignment | services/gemini.ts:5-136 | the grading service receives exactly `RequestSpec`, and the outcome is the check of its reply |
| ProcessingPipeline.StepIds | components/ProcessingPipeline.tsx:18-29 | the table's ids are the five processing steps in pipeline order |
| ProcessingPipeline.IndexOf | components/ProcessingPipeline.tsx:30-31 | `indexOf`: -1 exactly for an absent step, otherwise the first position holding it |
| ProcessingPipeline.StepTableOrder | components/ProcessingPipeline.tsx:18-24 | the table is the steps strictly between UPLOAD and REPORT, in declaration order |
| ProcessingPipeline.IndexOfTable | components/ProcessingPipeline.tsx:29-31 | a step's table index is its declaration position minus one, or -1 off the table |
| ProcessingPipeline.RowsFollowOrder | components/ProcessingPipeline.tsx:27-46 | for each row, the index comparison is the order classification: earlier steps completed, the current one active, the rest pending |
| ProcessingPipeline.RowColorAndIcon | components/ProcessingPipeline.tsx:27-46 | a row's colour and icon are those of its order classification |
| ProcessingPipeline.ColorOfInjective | components/ProcessingPipeline.tsx:33-35 | the three colour classes are distinct |
| ProcessingPipeline.ColorAndIconAgree | components/ProcessingPipeline.tsx:27-46 | green goes with the check mark, blue with the spinner, grey with the step's own icon |
| ProcessingPipeline.AllPendingOffTable | components/ProcessingPipeline.tsx:27-36 | while the current step is UPLOAD, REPORT or ERROR, every row is pending |
| ProcessingPipeline.ExactlyOneActive | components/ProcessingPipeline.tsx:34 | inside the table exactly the current step's row is active |
| ProcessingPipeline.ProgressBarAtMostOnce | components/ProcessingPipeline.tsx:75 | at most one row shows the bar, and one does exactly while a table step is processed |
| StudentDashboard.StagesAreDisplayedSteps | components/StudentDashboard.tsx:86-92 | the animated stages are exactly the display's rows, in order |
| StudentDashboard.HasModelAnswerMeaning | components/StudentDashboard.tsx:62-64 | a model answer exists exactly for text mode with some non-blank character, or file mode with a file |
| StudentDashboard.ToAttached | components/StudentDashboard.tsx:77-82 | a staged page converts exactly when its base64 conversion succeeds, keeping its id, name and type |
| StudentDashboard.PrepareFiles | components/StudentDashboard.tsx:76-83 | every page converted in order, or failure exactly when some conversion fails |
| StudentDashboard.StagesShown | components/StudentDashboard.tsx:95-98 | the animation shows each of the stages in order while processing |
| StudentDashboard.RunWithoutFiles | components/StudentDashboard.tsx:59 | with no staged page a run changes nothing, shows nothing and never calls the grading service |
| StudentDashboard.DisabledMeansNoEffect | components/StudentDashboard.tsx:257 | for an idle dashboard a disabled button's run changes nothing; an enabled run sends a request exactly when there is a model answer and every page converts, and otherwise ends with the no-model-answer or the generic error |
| StudentDashboard.RunWithoutModelAnswer | components/StudentDashboard.tsx:66-69 | without a model answer, only the error changes and nothing is sent or emitted |
| StudentDashboard.RunVisitsStagesFirst | components/StudentDashboard.tsx:86-104 | a run that reaches the grading service logs exactly seven events: the five stages in order, then the one request for the converted pages, then REPORT or UPLOAD, all while processing |
| StudentDashboard.RunSuccess | components/StudentDashboard.tsx:101-114 | a submission is emitted exactly when the reply parses; it carries the subject, the fixed name, the ML score, the result and the clock readings, and the step is REPORT |
| StudentDashboard.RunFailure | components/StudentDashboard.tsx:116-122 | a failed run returns to UPLOAD with the generic error, keeping the staged pages and the last result |
| StudentDashboard.RunProcessingFlag | components/StudentDashboard.tsx:71-122 | past the guards, every step shown and every request sent happens while processing, and the run ends idle |
| StudentDashboard.Dashboard.constructor | components/StudentDashboard.tsx:33-37 | UPLOAD, nothing staged, no result, idle, no error |
| StudentDashboard.Dashboard.CanRun | components/StudentDashboard.tsx:257 | the button is enabled exactly when idle with a staged page |
| StudentDashboard.Dashboard.HandleFileChange | components/StudentDashboard.tsx:39-52 | picked pages go after the staged ones and the error clears; no selection changes nothing |
| StudentDashboard.Dashboard.RemoveFile | components/StudentDashboard.tsx:54-56 | drops exactly the pages with that id, all other state unchanged |
| StudentDashboard.Dashboard.HandleReset | components/StudentDashboard.tsx:125-130 | no result, no staged page, UPLOAD, no error; the processing flag is untouched |
| StudentDashboard.Dashboard.ShowStep | components/StudentDashboard.tsx:96 | sets the displayed step and nothing else |
| StudentDashboard.Dashboard.AnimateStages | components/StudentDashboard.tsx:95-98 | the loop shows each stage in order and ends on ML_SCORING |
| StudentDashboard.Dashboard.AnimateAndGrade | components/StudentDashboard.tsx:95-122 | the animation, then the grading service call, then the success or failure branch give the state, the event log and the output of `GradeSpec` |
| StudentDashboard.Dashboard.RunPipeline | components/StudentDashboard.tsx:58-123 | the new state, the ordered log of steps shown and requests sent, and the emitted submission are those of the run specification `RunSpec` |
| TeacherDashboard.SubjectSubmissionsExact | components/TeacherDashboard.tsx:33 | exactly the subject's submissions, each as often as before, in order |
| TeacherDashboard.AvgScore | components/TeacherDashboard.tsx:34-36 | 0 without submissions, otherwise the mean rounded to the nearest integer with halves up |
| TeacherDashboard.SumScoresBounds | components/TeacherDashboard.tsx:35 | the sum of n scores in [lo, hi] lies in [n·lo, n·hi] |
| TeacherDashboard.RoundedMeanBounds | components/TeacherDashboard.tsx:35 | a rounded mean of such a sum lies in [lo, hi] |
| TeacherDashboard.AvgWithinBounds | components/TeacherDashboard.tsx:34-36 | the average of scores in [lo, hi] lies in [lo, hi] |
| TeacherDashboard.ScoreBandThresholds | components/TeacherDashboard.tsx:321-325 | green from 80, yellow from 60, red below, and monotone in the score |
| TeacherDashboard.UploadIdFields | components/TeacherDashboard.tsx:46 | an upload id splits on its dash into the clock reading and the index |
| TeacherDashboard.UploadIdsDistinct | components/TeacherDashboard.tsx:46 | files of one selection get different ids, whatever the clock reads |
| TeacherDashboard.Succeeded | components/TeacherDashboard.tsx:41-54 | the indices whose conversion succeeds, increasing, all of them |
| TeacherDashboard.ConvertUploads | components/TeacherDashboard.tsx:41-54 | the kept files are the converted files at the successful indices, in order |
| TeacherDashboard.ConvertedIdsDistinct | components/TeacherDashboard.tsx:41-54 | the kept files carry pairwise different ids |
| TeacherDashboard.AddFiles | components/TeacherDashboard.tsx:56-66 | the new files go after the targeted list, and the other list and the answer stay |
| TeacherDashboard.HandleFileUpload | components/TeacherDashboard.tsx:38-71 | no selection means no update; otherwise the loop's files are appended to the targeted list |
| TeacherDashboard.RemoveAttached | components/TeacherDashboard.tsx:73-85 | drops exactly the files with that id from the targeted list only |
| TeacherDashboard.RemoveAttachedKeepsOrder | components/TeacherDashboard.tsx:73-85 | the remaining files keep their order |
| TeacherDashboard.SetAnswerMode | components/TeacherDashboard.tsx:199-209 | the mode toggles change the mode and nothing else |
| TeacherDashboard.SetAnswerText | components/TeacherDashboard.tsx:228 | editing changes the answer text and nothing else |
| TeacherDashboard.ModeSwitchKeepsFiles | components/TeacherDashboard.tsx:199-209 | switching to text mode and back restores the configuration, files included |
| App.SeedsCoverSubjects | App.tsx:9-34 | each subject's name is a seed key holding that subject's seed configuration |
| App.SeedHasModelAnswer | App.tsx:9-34 | every seed configuration passes the student dashboard's model-answer check |
| App.DateRoundTrip | App.tsx:77-80 | a stored date reloads as itself, except that the invalid date becomes the epoch |
| App.ConfigsRoundTrip | App.tsx:62-70 | saved configurations load back unchanged |
| App.SubmissionsRoundTrip | App.tsx:72-87 | saved submissions load back in order, unchanged except invalid dates |
| App.SubmissionsRoundTripValid | App.tsx:72-87 | with valid timestamps, saving and loading is the identity |
| App.KeysIndependent | App.tsx:62-87 | each loader reads only its own key |
| App.LoadFallbacks | App.tsx:62-87 | an absent, empty or unparsable key falls back to the seeds, each key on its own |
| App.UpdateConfig | App.tsx:107-112 | the current subject's entry is replaced, every other key is kept |
| App.Prepend | App.tsx:114-116 | the new submission first, then the old list in order |
| App.ClearedStorage | App.tsx:122-123 | both keys are removed and every other key is kept |
| App.ResetThenReload | App.tsx:118-125 | after a confirmed reset, the next load gives the seeds whether or not the effects write the reset state back |
| App.AppStore.constructor | App.tsx:60-87 | Physics selected, both collections loaded from storage |
| App.AppStore.PersistConfigs | App.tsx:90-96 | a write stores the configurations; a failed write changes nothing |
| App.AppStore.PersistSubmissions | App.tsx:98-104 | a write stores the submissions; a failed write changes nothing |
| App.AppStore.SelectSubject | App.tsx:180 | selecting a subject changes only the current subject |
| App.AppStore.HandleConfigUpdate | App.tsx:107-112 | the configurations become `UpdateConfig` of the current subject |
| App.AppStore.HandleNewSubmission | App.tsx:114-116 | the submissions become `Prepend` of the new one |
| App.AppStore.HandleResetData | App.tsx:118-125 | when confirmed, the seeds and cleared storage; otherwise nothing changes |
| LoginScreen.ValidateMeaning | components/LoginScreen.tsx:14-25 | no role gives the role message; with a role, a blank name gives the name message; otherwise the login goes ahead with the role and the untrimmed name |
| LoginScreen.LoginForm.constructor | components/LoginScreen.tsx:10-12 | no role, empty name, no error |
| LoginScreen.LoginForm.HandleSubmit | components/LoginScreen.tsx:14-25 | a failed check shows its message and logs nobody in; a passed one logs in with the role and name, keeping the error line |
| LoginScreen.LoginForm.SelectRole | components/LoginScreen.tsx:76-89 | a role button selects that role and clears the error |
| LoginScreen.LoginForm.EditName | components/LoginScreen.tsx:108 | typing sets the name and clears the error |

## Left out

- The network call to the grading model, its model name and its response schema are not modelled. The grading service is a function parameter from the request to a `ServiceReply`.
- Gemini.CheckReply: the source's `JSON.parse(response.text) as AssessmentResult` does no validation, so any valid JSON, even `{}` or an object missing `mlScore`, is returned as a success, and the run then emits a submission with an undefined score and shows REPORT. The typed model cannot represent such a value. It treats a reply without the declared fields as `Unparsable`, which makes the run fail with the generic error instead.
- `JSON.stringify` and `JSON.parse` are abstracted. Storage maps each key to what its text parses as: configurations, a submission array, the empty string, or unparsable text.
- App.LoadConfigs: treats a configurations key holding valid JSON that is not an object (an array, a number) like unparsable text and falls back to the seeds. The source would use that value as the configuration map.
- Timestamps are stored as their millisecond count in decimal rather than as ISO-8601 text. `Date`'s range limits are not modelled.
- Utils.FileToBase64: rejects a reader string without a comma, where the source resolves with `undefined`. Browser data URLs always contain the comma, so an `undefined` payload is not modelled.
- `FileReader`, `Date.now()`, `Math.random()` and `confirm()` are parameters: a reader outcome per file, clock readings, the staged page ids, and a confirmation flag.
- The 800 ms pacing delay between stages is left out; only the order of the displayed steps is kept.
- Concurrency between the asynchronous run and other user events is not modelled. Each method runs to completion.
- `Promise.all` is modelled as failing when any conversion fails. Which of several failures is reported is not modelled, and nothing is displayed with the failure.
- `localeCompare` (numeric, base sensitivity) and `toLocaleDateString` are parameters of the report. The sort is proved for any total preorder.
- Utils.GenerateReport: no component calls it, so no dashboard state leads to it; it is modelled on its own. It also stops at the CSV text. `encodeURI`, the DOM download link and the dated file name are left out.
- Scores and marks are integers. JavaScript floating-point numbers are not modelled, and neither is `Math.round` on fractional scores beyond halves rounding up.
- The preview URL of a staged page (`URL.createObjectURL`) and the file input reset are left out.
- The JSX layout, styling and icons of every component are left out, apart from the colour and icon choices of the progress display and the score bands.
- `components/ReportView.tsx` is not part of this model.
- The app's own inline role buttons and `userRole` are not modelled, nor is logging out. `LoginScreen` covers the form's role and name checks.
- The persistence effects run after each state change. Their order relative to a reset is modelled in `App.ResetThenReload` by two flags, one for each effect that writes back.
- Console logging and warnings are left out.
