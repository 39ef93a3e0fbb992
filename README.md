# DataSummarizer, modelled in Dafny

This project models the summarisation logic of the `DataSummarizer` React component
(`src/App.jsx`) and proves properties of it. A summarisation run makes three dependent
remote calls: ingest the text, apply the summarising prompt, and retrieve the summary.
While it runs, the component moves between its three steps, drives a progress bar,
logs every parsed reply, and tracks the remote objects it creates. A cleanup sweep
later deletes those objects. The summary can also be downloaded as a one-column CSV
file.

The network is not modelled. Each call is replaced by the reply it gets, which the
caller supplies as a parameter:
- `Pipeline.Reply` describes a POST. It is either a parsed body, with the HTTP `ok`
  flag and the body's `value` field, or an exception. The exception stands for
  `fetch` or `.json()` throwing; in that case the handler logs nothing.
- `Pipeline.DeleteReply` describes a DELETE. Either its response text was read, or it
  threw.

Files:
- `jsstring.dfy` (module `JsString`): `String.prototype.trim`, as the blank-input test
  uses it. The set of trimmed characters is the ECMAScript WhiteSpace and
  LineTerminator set (ECMA-262, sections 12.2 and 12.3).
- `csv.dfy` (module `CsvExport`): the content of `summary.csv`. This is the header line
  followed by the summary in one quoted field, with every `"` doubled (RFC 4180,
  section 2, rules 5 to 7). The file also has the inverse operations and a reader,
  used to state the round trip.
- `pipeline.dfy` (module `Pipeline`): the pure description of a run.
  - `Run` reads the whole effect of a run off the three replies: the calls issued, the
    log entries, the created names, the progress values, and the final step, summary
    and error.
  - `Staged` is an independent, stage-by-stage fold of the handler's try block.
  - `StagedIsRun` proves that the two descriptions agree.
  - The file also holds the cleanup sweep as values: `DeleteCalls` and `DeleteLogs`.
- `session.dfy` (module `Session`): the class `DataSummarizer`. Its fields are the
  component's state variables, and its methods follow the handlers statement by
  statement. Two ghost fields record what the UI cannot see:
  - `calls` holds every remote call issued;
  - `progressTrace` holds every value given to the progress bar.
- `scenarios.dfy` (module `Scenarios`): sequences of handler calls, namely two cleanups
  in a row and two successful runs in a row.

Four behaviours of the code that a reader might not expect, all modelled as written:
- A run ends with the progress bar at 0 (line 154), not at 100.
- `createdObjects` is appended to (lines 98 and 124). Names are never deduplicated, so
  after two runs each name is tracked twice (`Scenarios.SummarizeTwice`).
- Each progress value is set before its stage's call is issued (lines 78, 101 and 127),
  not after the call succeeds.
- Nothing rejects a second run, and nothing discards a result that arrives after
  Cancel. Cancel only sets two fields (lines 370-373).

## Model

`Pipeline.Step`, `Pipeline.StepAll` and `Pipeline.Staged` only compute. Their rows are lemmas:
- `StepEffect` and `StagedSteps` unfold `Step` and `Staged`.
- `ThrownSkipsRest` and `StepAllExtends` are proved by induction. They state what any run of stages keeps.
- `StagedIsRun` equates the fold with the case table `Run`.

| member | source | states |
|---|---|---|
| JsString.TrimStart | src/App.jsx:65 | the result is a suffix of the input; every dropped character is trimmable; the result does not start with one |
| JsString.TrimEnd | src/App.jsx:65 | the result is a prefix of the input; every dropped character is trimmable; the result does not end with one |
| JsString.Trim | src/App.jsx:65 | the trimmed text is a contiguous piece of the input with only trimmable characters around it; it neither starts nor ends with whitespace, and it is empty exactly when every character of the input is whitespace or a line terminator |
| CsvExport.EscapeQuotes | src/App.jsx:185 | `replace(/"/g, '""')` makes the text longer by exactly its number of double quotes |
| CsvExport.CollapseQuotes | src/App.jsx:185 | undoing the doubling never lengthens the text |
| CsvExport.EscapedIsPaired | src/App.jsx:185 | in every escaped summary each double quote is one of an adjacent pair, as an RFC 4180 quoted field requires |
| CsvExport.CollapseEscape | src/App.jsx:185 | collapsing each `""` of the escaped summary back to `"` gives the summary exactly |
| CsvExport.EscapeCollapse | src/App.jsx:185 | every correctly paired field body is the escaping of the string it collapses to, so escaping is onto the paired bodies |
| CsvExport.SummaryCsv | src/App.jsx:185 | the file is as long as the header, the summary, one extra character per embedded quote and the two enclosing quotes; its content is pinned by the two lemmas below |
| CsvExport.SummaryCsvRoundTrip | src/App.jsx:185 | reading the written file back as header plus one quoted field gives the summary |
| CsvExport.SummaryCsvUnique | src/App.jsx:185 | a content that reads back as a summary is exactly the file written for that summary |
| Pipeline.ErrorText | src/App.jsx:150 | the shown error is the exception's message when that message is not empty, and "An error occurred while summarizing" when it is |
| Pipeline.FailureMessage | src/App.jsx:94-96 | a stage that replied not-ok shows that stage's fixed message; a thrown exception shows the error text of its own message, that is its message or the generic one; the result is never empty |
| Pipeline.SummaryText | src/App.jsx:146 | the shown summary is the retrieved `value` when it is a non-empty string, and "No summary generated" otherwise |
| Pipeline.Run | src/App.jsx:64-156 | each call is issued only after the previous stage succeeded, in stage order; every reply that arrived is logged, in call order, before its ok check; the created names are input only after a good ingest and input then summary after a good prompt; progress runs 0, 33, 66, 100 up to the stopping stage and then returns to 0; the run ends in step 3 with the summary, or in step 1 with the stopping stage's error |
| Pipeline.Raises | src/App.jsx:91-96 | a stage throws exactly when its reply is not a success, and the error its exception shows is the stage's failure message |
| Pipeline.StepEffect | src/App.jsx:78-98 | one stage of the try block does nothing once something was thrown; otherwise it adds one call and its progress value, logs the reply if it arrived, throws what `Raises` gives, and tracks the stage's object only on success |
| Pipeline.StepAllExtends | src/App.jsx:76-144 | running stages only appends to the calls, log, tracked names and progress values, by at most one call and one progress value per stage, and keeps an exception already thrown |
| Pipeline.ThrownSkipsRest | src/App.jsx:76-151 | once a stage has thrown, the remaining stages of the try block change nothing |
| Pipeline.StagedSteps | src/App.jsx:76-144 | the try block is the ingest step, then the prompt step, then the retrieve step |
| Pipeline.StagedStopsAtIngest | src/App.jsx:78-96 | a failed ingest leaves one call, its log entry if its body arrived, no new object, and a thrown exception |
| Pipeline.StagedStopsAtSummarize | src/App.jsx:78-122 | a good ingest and a failed prompt leave two calls and the input object, and the run throws |
| Pipeline.StagedReachesRetrieve | src/App.jsx:78-144 | two good stages leave three calls and both objects; the run throws exactly when the retrieval fails |
| Pipeline.StagedIsRun | src/App.jsx:64-156 | the stage-by-stage fold appends exactly the calls, log entries, names and progress values that `Run` gives, and it throws exactly when `Run` ends in an error, with that error |
| Pipeline.Process | src/App.jsx:64-68 | the summarise button is rejected exactly when the input holds only whitespace; otherwise it performs `Run` |
| Pipeline.DeleteCalls | src/App.jsx:170-175 | the sweep issues one DELETE per tracked name |
| Pipeline.DeleteCallsInOrder | src/App.jsx:170-175 | the i-th DELETE of the sweep targets the i-th tracked name |
| Pipeline.DeleteLogs | src/App.jsx:169-180 | the sweep logs at most one entry per element of the tracked list (a name tracked twice can be logged twice) |
| Pipeline.DeleteLogsSnoc | src/App.jsx:170-180 | one more name at the end of the sweep adds only its own entry, at the end of the log |
| Pipeline.SweepStep | src/App.jsx:170-180 | the first i + 1 iterations are the first i, then the DELETE of name i |
| Pipeline.DeleteLogsAppend | src/App.jsx:170-180 | sweeping two lists one after the other logs what the two sweeps log, in that order |
| Pipeline.ThrownDeleteSkipped | src/App.jsx:171-179 | a DELETE that threw logs nothing and does not stop the DELETEs after it |
| Pipeline.DeleteLogsAllResolved | src/App.jsx:170-176 | when every DELETE resolves, the log gains exactly one entry per name, in list order |
| Pipeline.DeleteLogSource | src/App.jsx:176 | every entry the sweep logs is the DELETE log of a tracked name whose DELETE resolved |
| Session.DataSummarizer.constructor | src/App.jsx:12-22 | the initial state: step 1, no input, no file, not loading, progress 0, empty summary, error, logs and tracked names |
| Session.DataSummarizer.EditText | src/App.jsx:310 | typing replaces the input text |
| Session.DataSummarizer.SetProgress | src/App.jsx:78 | the progress bar shows the given value, which is appended to the record of progress values |
| Session.DataSummarizer.LogApiCall | src/App.jsx:25-34 | appends exactly one entry to the call log and changes nothing else |
| Session.DataSummarizer.RunStage | src/App.jsx:78-98 | one stage moves the session's calls, log, tracked names and progress values exactly as the stage `Step` does, and leaves the bar at the stage's mark (33, 66 or 100) |
| Session.DataSummarizer.RunStages | src/App.jsx:76-147 | the try block moves the session exactly as `Staged` does; the bar shows the last value given to it, 100 after a full run; after the last stage succeeds it shows the summary in step 3 |
| Session.DataSummarizer.BeginRun | src/App.jsx:70-74 | a run starts with the spinner on, no error, no summary, step 2 and progress 0 |
| Session.DataSummarizer.EndRun | src/App.jsx:149-155 | an exception sets its message, or the generic one, and returns to step 1; whatever happened, the spinner stops and the progress goes back to 0 |
| Session.DataSummarizer.StartRun | src/App.jsx:70-155 | a run on given input leaves exactly the state the stage-by-stage fold gives |
| Session.DataSummarizer.ProcessData | src/App.jsx:64-156 | blank input only sets the "Please enter some text" error and changes nothing else; any other input appends `Run`'s calls, log entries, names and progress values to the state and sets `Run`'s step, summary and error, with the spinner off and progress 0; the input and file are untouched |
| Session.DataSummarizer.ClearAll | src/App.jsx:158-167 | empties the input, file, summary and error and returns to step 1; logs, tracked names, progress and the spinner are untouched |
| Session.DataSummarizer.Cancel | src/App.jsx:370-373 | stops the spinner and returns to step 1, and changes nothing else |
| Session.DataSummarizer.DeleteObject | src/App.jsx:171-179 | one DELETE is issued, and its response is logged only if it was read |
| Session.DataSummarizer.DeleteAll | src/App.jsx:170-180 | the loop issues `DeleteCalls` and logs `DeleteLogs` over the given names |
| Session.DataSummarizer.DeleteObjects | src/App.jsx:169-182 | one DELETE per tracked name, in list order, whatever became of the earlier ones; afterwards the tracked list is empty |
| Scenarios.CleanupTwice | src/App.jsx:169-182 | a second cleanup right after the first issues no call and logs nothing |
| Scenarios.SummarizeTwice | src/App.jsx:64-156 | two successful runs append the two object names twice, because names are not deduplicated, and show the summary |

## Left out

- `fetch`, the API base URL, the bearer, app-id and usage headers, and request serialisation (lines 3-9, 85-89, 111-115, 133-137, 172-175): network I/O. Each call is replaced by its reply, given as a parameter.
- The parsed JSON bodies: only their `value` field is kept, as an optional string. A truthy `value` that is not a string is not modelled.
- Pipeline.Run: does not model a reply whose body is JSON `null`. For the retrieve stage with an ok status, line 140 logs it and line 142 passes. Then `result.value` on line 146 throws a TypeError, and the run ends in step 1 with the engine's TypeError message (lines 149-151) and both names already tracked. `Pipeline.Reply` has no null-body case, so this outcome is not expressible in `Run`, `Step`, `Session.DataSummarizer.RunStage` or `Session.DataSummarizer.RunStages`. The closest reply, an ok body without `value`, ends in step 3 with "No summary generated". The TypeError's text also differs between JavaScript engines. For ingest and prompt a `null` body is logged and never read, so it behaves like a body without `value`. Only the logged response differs, `null` against an object.
- Log timestamps (line 27): a clock read. A log line keeps its method, endpoint, request and response. These are the member functions of `Pipeline.LogEntry`, so a line is stored as the stage or object it concerns.
- The prompt request's `inputs` list (lines 105-108) holds one element; it is kept as that element's two fields.
- `console.error` in the cleanup loop (line 178): output only.
- File upload, drag and drop and `FileReader` (lines 36-62): browser I/O. `file` is kept only as the name of a file or none, so `clearAll` can reset it.
- Resetting the file input element (lines 164-166): DOM state.
- The Blob, the object URL and the anchor click that download the CSV (lines 186-192): DOM I/O. Only the content built on line 185 is modelled.
- All rendering, dark mode, the debug panel and the "Process New Data" button (lines 195-502): UI.
- React's deferred state updates, and the interleaving of a run with Cancel or with a second run at its `await` points: each handler is modelled as running to completion. The component does nothing itself about overlapping runs or stale results, and the model adds nothing either.
- Session.DataSummarizer.DeleteObjects: requires one reply per tracked name. This is how the environment supplies the outcomes; the component itself demands nothing.
