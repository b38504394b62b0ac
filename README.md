# AudioTranscribe, modelled in Dafny

This project models the logic of the `AudioTranscribe` React component (`demo.ts`), the editor
screen of a transcription app. The screen shows one selected task: an uploaded recording, a YouTube
video, a scraped web page or a PDF. On that task it can start a transcription, watch it complete,
edit and save the notes, summarise them, combine several tasks, record audio, and export the result.

The model has five parts:

- **Transcript reading** (`text.dfy`, `srt.dfy`). `timeToSeconds` turns a colon-separated timestamp
  into seconds, reading each field by `parseFloat`'s leading-decimal rule. `parseTranscriptSegments` turns
  SubRip (SRT) text into timed segments. If any block is malformed, the whole result becomes one
  fixed error segment. Seconds are exact `real`s. The string built-ins the component relies on
  (`split`, `join`, `trim`, `toString`, `padStart`) are defined in `Text` with their JavaScript meaning.
- **Formatters** (`formatting.dfy`). These cover the `MM:SS` recording clock, the newline-to-`<br>`
  conversion applied before content reaches the editor, and the `.srt` / tag-stripped `.md` export.
- **Upload spinners** (`upload_flags.dfy`). The `isUploading` list of `{status, taskId}` entries is
  replaced wholesale by three updaters: find-or-append, append, and filter. The "is uploading" query
  reads it.
- **Recording** (`recording.dfy`). `RecordingSession` is a class holding the recording flags, the
  seconds counter and the interval handle. The browser's table of live intervals is an explicit
  field, so "exactly one timer runs while recording and unpaused" is a class invariant.
- **Handlers** (`handlers.dfy`, `component.dfy`). `Handlers` gives each event handler as a pure step
  on a `State` record, plus the guard and reconciliation lemmas. `Component.AudioTranscribe` is the
  component as an object: its state hooks are fields, its handlers are methods, and it owns a
  `RecordingSession`. Each method updates the fields in the source's order and is proved to take its
  handler's step. The wait loop of `handleTranscribe` is a `while` loop over the successive status
  replies.

Every awaited call into the `api` module is an input of type `Remote<T>`: either the returned value
or the thrown error. Every call a handler makes is appended to a `calls` log, so "no remote call" can
be stated. The effective token is a string, with `""` for a missing token. The credit balance is a
constant of the component. Timers are explicit events:

- `Tick` for the one-second recording interval;
- `FlushEdit` for the 100 ms edit debounce;
- `PollStatus` for one run of the status query.

The model follows the code as written, including where it does not do what it appears to intend:

- Switching tasks cancels the query keyed by the *new* task's id when that task is not IN_PROGRESS
  (`demo.ts:215-217`). Nothing discards a stale result of the old task's poller or wait loop, and
  there is no generation counter.
- The file upload first makes an awaited remote update to IN_PROGRESS and selects the server's
  answer. It does not set IN_PROGRESS locally, and it does this even when no file was chosen
  (`demo.ts:257-263`).
- Removing the file and changing the task are not behind the credits gate; only the handlers that
  check `credits <= 0` are.
- A failing `updateTask` in the file handler and a failing `fetchTaskById` in the status query are not
  caught. The handler simply ends there, and the model does the same.
- Nothing enforces `startTime < endTime` for the segments of a well-formed transcript.
- The save handler's `isEditing` check (`demo.ts:406-409`) never fires. The flag is raised and
  lowered inside one synchronous call of the debounced edit handler, so no other handler runs while
  it is up (`Handlers.EditingFlagStaysDown`).
- The debounced edit handler is rebuilt whenever the selected task's id changes, and the cleanup of
  the old one cancels the edit still waiting in it (`demo.ts:387-400`, `617-621`). Any selection of a
  task with another id therefore drops the waiting edit. A new task object with the same id keeps it.
- Every change of the selected task re-runs `handleTaskChange` through an effect (`demo.ts:609-611`),
  which reloads the edit buffer from the newly selected task. So in the program, starting a
  transcription or a summary, or any other handler that selects a task, discards unsaved text in
  the editor. The model keeps this effect as the separate `HandleTaskChange` event that follows such
  a handler.

## Model

| member | source | states |
|---|---|---|
| Text.Trim | demo.ts:124 | the result has no white space at either end, and it is empty exactly when the input is all white space (the ECMAScript white space and line terminators) |
| Text.TrimIsSlice | demo.ts:124 | the result is the slice of the input that starts where the leading white space ends, and everything before that slice is white space |
| Text.TrimDropsTrailingSpace | demo.ts:124 | everything after that slice is white space too |
| Text.TrimEmpty | demo.ts:124 | trimming both ends leaves nothing exactly when every character is white space |
| Text.SplitJoin | demo.ts:126-139 | joining the pieces of a split with the same separator gives the original text back |
| Text.JoinSplit | demo.ts:139 | splitting a join of separator-free pieces gives the pieces back |
| Text.SplitAtFirstMatch | demo.ts:124 | the first piece of a split ends at the first occurrence of the separator, even when the piece holds the separator's first character |
| Text.SplitWithoutMatch | demo.ts:124 | text in which the separator never occurs splits into itself alone |
| Text.TrimOfTrimmed | demo.ts:124 | text that neither starts nor ends with white space trims to itself |
| Text.NatToString | demo.ts:605 | `n.toString()` is a non-empty digit string without a leading zero whose value is n; one digit exactly below 10, at most two below 100 |
| Text.PadStart | demo.ts:605 | `padStart` keeps the string as a suffix, fills with the pad character, and reaches at least the width |
| Srt.ParseFloat | demo.ts:162-167 | `parseFloat` is a number exactly when the trimmed text starts with a digit or with `.` and a digit; the number is never negative |
| Srt.ParseFloatDigits | demo.ts:162-167 | `parseFloat` of a digit string followed by a character that cannot continue a number is that string's value |
| Srt.ParseFloatDecimal | demo.ts:162-167 | `parseFloat` of `digits.digits` followed by a non-digit is the whole part plus the fraction's digits over the matching power of ten |
| Srt.ParseFloatLeadingDot | demo.ts:162-167 | `parseFloat` of `.digits` followed by a non-digit is the fraction alone |
| Srt.ParseFloatSkipsSpace | demo.ts:162-167 | a leading white-space character does not change what `parseFloat` reads |
| Srt.ReadNumber | demo.ts:162-167 | after the white space, a number is read exactly when the text starts with a digit or with `.` and a digit, and it is never negative |
| Srt.TimeToSeconds | demo.ts:158-177 | the result is never negative, and any part count other than two or three gives 0 without failing |
| Srt.TimeToSecondsHms | demo.ts:161-165 | `H:M:S` with digit fields, even with a non-numeric tail after the seconds, gives h*3600 + m*60 + s |
| Srt.TimeToSecondsMs | demo.ts:166-170 | `M:S` with digit fields gives m*60 + s |
| Srt.TimeToSecondsHmsDecimal | demo.ts:161-165 | `H:M:S.F` with digit fields gives h*3600 + m*60 + s plus the fraction of the seconds |
| Srt.SplitThree | demo.ts:160 | three `:`-free parts joined by `:` split back into exactly those parts |
| Srt.TimeToSecondsThreeParts | demo.ts:160-165 | for any three `:`-free parts, the time is computed from them as `parseFloat` reads them |
| Srt.TimeToSecondsTwoParts | demo.ts:160-170 | for any two `:`-free parts, such as `02:03,500` or `1:2.5`, the time is computed from them as `parseFloat` reads them |
| Srt.TimeToSecondsNaNPart | demo.ts:160-176 | a two- or three-part time with any part that `parseFloat` reads as NaN gives 0, whatever the other parts are |
| Srt.SecondsOfPartsNaN | demo.ts:161-176 | the same, stated on the parts once split |
| Srt.TimeToSecondsFractionExample | demo.ts:161-165 | `00:01:02.5` is 62.5 |
| Srt.TimeToSecondsNaNExample | demo.ts:166-176 | `ab:00` is 0 |
| Srt.TimeToSecondsHmsExample | demo.ts:161-165 | `01:02:03` is 3723 |
| Srt.TimeToSecondsMsExample | demo.ts:166-170 | `02:03` is 123 |
| Srt.TimeToSecondsBadExample | demo.ts:172-176 | `bad` is 0 |
| Srt.TimeToSecondsSrtComma | demo.ts:160-165 | the SRT timestamp `00:00:03,500` is 3, because `parseFloat` stops at the comma |
| Srt.ParseBlock | demo.ts:126-140 | a block gives a segment exactly when it has at least three lines and its second line contains ` --> ` |
| Srt.ParseBlockOfLayout | demo.ts:130-140 | a block laid out as id line, `start --> end` line and text lines reads back as the segment with that id, those times and the text lines joined by newlines |
| Srt.MalformedTimestampIsZero | demo.ts:131-134 | a time field without `:` reads as 0 and the block still gives its segment, so a bad timestamp alone never rejects the document |
| Srt.Collect | demo.ts:125-145 | the all-or-nothing of a `map` that may throw: every value in order, or nothing when any is missing |
| Srt.ParseBlocks | demo.ts:125-141 | every block's segment in order exactly when every block is well formed; otherwise nothing |
| Srt.ParseTranscriptSegments | demo.ts:119-146 | `[]` for a missing or empty transcript; otherwise one segment per block of the trimmed text, in order, or exactly the single error segment when any block is malformed |
| Srt.WhitespaceOnlyIsError | demo.ts:120-128 | white space alone is truthy but trims to one empty block, so it gives the error segment |
| Srt.ShortBlockIsError | demo.ts:127-129 | any block of fewer than three lines makes the whole result the error segment |
| Srt.BlankLineEndsBlock | demo.ts:124 | a block with no blank line inside and no trailing newline ends at the next `\n\n` |
| Srt.LastBlock | demo.ts:124 | such a block alone is a single block |
| Srt.TwoBlockDocument | demo.ts:119-141 | two well-formed blocks separated by a blank line give exactly their two segments, in order |
| Srt.TwoBlockExample | demo.ts:119-141 | a concrete two-block SRT document gives the segments 1 s to 2 s `Hello` and 3 s to 4 s `World` |
| Srt.SrtBlockExample | demo.ts:126-140 | a block of an id line, a `start --> end` line and one text line parses to that segment and holds no blank line |
| Formatting.FormatRecordingTime | demo.ts:602-606 | the clock is a field of at least two digits, `:`, and two digits below 60, with minutes*60 + seconds equal to the input; below 6000 seconds it is exactly five characters |
| Formatting.ShowsSecondsReadsBack | demo.ts:166-170 | any such clock reads back through `timeToSeconds` as the seconds it shows |
| Formatting.FormatRecordingTimeRoundTrip | demo.ts:602-606 | `timeToSeconds(formatRecordingTime(n)) == n` for every natural n |
| Formatting.Field | demo.ts:605 | a padded field has at least two digits and reads back as its number, with exactly two digits below 100 |
| Formatting.FormatContent | demo.ts:74-76 | no newline is left, and newline-free content is unchanged |
| Formatting.FormatContentIsSplitJoin | demo.ts:74-76 | replacing every newline is splitting at newlines and joining with `<br>` |
| Formatting.FormatContentIdempotent | demo.ts:74-76 | formatting twice is formatting once |
| Formatting.StripTags | demo.ts:495 | no match of `/<[^>]+>/` is left, and no character is introduced |
| Formatting.StripTagsOfTagFree | demo.ts:495 | text without tags is left as it is |
| Formatting.StripTagsIdempotent | demo.ts:495 | stripping twice is stripping once |
| Formatting.StripTagsAtTag | demo.ts:495 | a tag at the very start goes, and stripping goes on after it |
| Formatting.StripTagsRemovesTag | demo.ts:495 | text in which no match starts (a stray `<` such as `<>` may occur), then `<`, a non-empty run without `>`, then `>`: the text stays and the tag goes, and stripping goes on after it |
| Formatting.SaveAsFile | demo.ts:487-510 | SRT export downloads the raw transcript as `<name>.srt` exactly when there is one; Markdown export downloads the tag-free notes as `<name>.md` exactly when they are non-empty |
| Tasks.WithoutMediaUrl | demo.ts:313-316 | the media's download URL is dropped, its other fields and the rest of the task are kept, and a task without media stays without media |
| UploadFlags.FindIndex | demo.ts:266 | `findIndex`: none exactly when no entry has the id; otherwise the first entry with the id |
| UploadFlags.IsUploading | demo.ts:745 | the spinner shows for a task exactly when some entry for it has its status set; what the updaters do to it is stated by the lemmas below |
| UploadFlags.MarkUploading | demo.ts:264-273 | the find-or-append updater of the file upload; `MarkUploadingSpec` states its effect |
| UploadFlags.AppendUploading | demo.ts:555 | the append updater of the recording upload; `AppendUploadingSpec` states its effect |
| UploadFlags.ClearUploading | demo.ts:297 | the filter updater of both `finally` blocks; `ClearUploadingSpec`, `ClearEntries`, `ClearLength` and `ClearMembers` state its effect |
| UploadFlags.MarkUploadingSpec | demo.ts:264-273 | after the find-or-append the task's spinner is on; the list grows only when the task had no entry; positions keep their tasks; other tasks' entries are untouched; a task with at most one entry has exactly one raised entry |
| UploadFlags.AppendUploadingSpec | demo.ts:555 | the recording append turns the spinner on, keeps the old list as a prefix, adds one entry for the task (so entries may repeat) and none for any other task |
| UploadFlags.ClearUploadingSpec | demo.ts:297 | no entry of the task survives the cleanup filter, so its spinner is off |
| UploadFlags.ClearEntries | demo.ts:565 | the filter empties the task's entry list and keeps every other task's entries in order |
| UploadFlags.ClearLength | demo.ts:297 | the filter drops exactly as many entries as the task had |
| UploadFlags.ClearMembers | demo.ts:297 | an entry survives the filter exactly when it belongs to another task |
| UploadFlags.ClearAfterMark | demo.ts:264-297 | the `finally` of the file upload undoes its find-or-append: the list is the old one without the task's entries |
| UploadFlags.ClearAfterAppend | demo.ts:555-565 | the `finally` of the recording upload undoes its append in the same way |
| UploadFlags.MarkOther | demo.ts:264-273 | marking one task leaves every other task's entries and spinner as they were |
| UploadFlags.ClearOther | demo.ts:297 | clearing one task leaves every other task's spinner as it was |
| UploadFlags.EntriesAppend | demo.ts:272 | the entries of an appended list are the entries of its parts |
| Recording.RecordingSession.LiveTimerCount | demo.ts:535-597 | at most one interval is live, and one is live exactly while recording and not paused |
| Recording.RecordingSession.constructor | demo.ts:78-82 | not recording, not paused, counter 0, no handle, no live interval |
| Recording.RecordingSession.SetInterval | demo.ts:535-537 | a fresh handle is stored in the ref and joins the live intervals |
| Recording.RecordingSession.ClearIntervalRef | demo.ts:549-551 | the interval held by the ref, if any, stops being live |
| Recording.RecordingSession.Start | demo.ts:512-541 | with a working recorder: recording, not paused, counter 0, exactly the new interval live; a recorder that cannot be set up changes nothing |
| Recording.RecordingSession.TogglePause | demo.ts:586-600 | nothing unless recording; otherwise pausing clears the live interval and resuming starts exactly one fresh interval, the counter kept |
| Recording.RecordingSession.Stop | demo.ts:543-551 | nothing unless recording and the recorder hands back its audio; then both flags are off, no interval is live, and the counter stays |
| Recording.RecordingSession.Tick | demo.ts:535-537 | a live interval adds one second; a cleared one never runs |
| Handlers.OutOfCredits | demo.ts:225-228 | the upgrade dialog is raised and nothing else changes |
| Handlers.Select | demo.ts:387-400 | `setSelectedTask`: the task is selected, and the waiting edit is dropped unless the task id stays (the debounce is rebuilt on a new id, and its cleanup at `demo.ts:617-621` cancels it) |
| Handlers.Reconcile | demo.ts:200-202 | the fetched task becomes the selected task, the buffer holds its content in editor form (no newline left), the waiting edit survives only for the same task id, and nothing else changes |
| Handlers.PollStep | demo.ts:179-207 | one enabled run of the status query and its `onSuccess`; it never touches the editing flag |
| Handlers.Wait | demo.ts:340-343 | the wait loop consumes at most the replies it is given; `WaitSpec` states which |
| Handlers.WaitSpec | demo.ts:339-343 | the wait consumes only IN_PROGRESS replies and ends on the first reply that is not IN_PROGRESS or on the first failing call; it runs out of replies exactly when all of them were IN_PROGRESS |
| Handlers.AwaitStep | demo.ts:337-354 | the waiting part of `handleTranscribe`; `AwaitStepCalls` states its call log |
| Handlers.TranscribeStep | demo.ts:319-358 | `handleTranscribe` as a step: gate, status check, IN_PROGRESS, start, then the wait |
| Handlers.TaskChangeStep | demo.ts:212-222 | `handleTaskChange` as a step: the task selected, its query cancelled unless IN_PROGRESS, its formatted content loaded |
| Handlers.WebsiteStep | demo.ts:224-244 | `handleWebsite` as a step |
| Handlers.FileChangeStep | demo.ts:246-300 | `handleFileChange` as a step |
| Handlers.UploadStep | demo.ts:264-298 | the upload with the spinner raised before it and cleared after it |
| Handlers.SendStep | demo.ts:275-294 | the `try` of the file upload never touches the spinner list |
| Handlers.RemoveFileStep | demo.ts:302-317 | `handleRemoveFile` as a step |
| Handlers.YouTubeStep | demo.ts:360-384 | `handleYouTubeTranscribe` as a step |
| Handlers.EditStep | demo.ts:387-391 | `handleEditTranscription` as a step |
| Handlers.FlushStep | demo.ts:393-398 | the debounced call firing: the waiting edit applied, the editing flag down after it |
| Handlers.SaveStep | demo.ts:402-422 | `handleSaveTranscription` as a step |
| Handlers.SummarizeStep | demo.ts:424-454 | `handleSummarizeAI` as a step |
| Handlers.CombineStep | demo.ts:463-485 | `onCombineTasks` as a step |
| Handlers.RecordingUploadStep | demo.ts:553-567 | the upload half of `stopRecording` as a step |
| Handlers.RecordingSendStep | demo.ts:554-563 | the `try` of the recording upload never touches the spinner list |
| Handlers.CreditsGate | demo.ts:225-228 | with credits <= 0, the website, file, transcribe, YouTube, summarise and combine handlers (also `demo.ts:247-250`, `320-323`, `361-365`, `425-428`, `464-467`) only raise the upgrade dialog and call nothing; YouTube also closes its dialog. The balance is the one the handler sees, which in the program can be a stale captured value (see Left out) |
| Handlers.NoTokenNoCall | demo.ts:229-232 | without a token, no handler and no run of the status query calls the server |
| Handlers.CombineGuard | demo.ts:468-471 | past the credits gate, combining without a token or with fewer than two tasks changes nothing at all |
| Handlers.SaveGuard | demo.ts:402-410 | saving without a token, or while an edit is being applied, changes nothing at all; the second case never arises in a reachable state (`EditingFlagStaysDown`) |
| Handlers.EditForOtherTask | demo.ts:387-398 | an edit typed for another task leaves the state as it was, also when it comes through the debounce |
| Handlers.PollEchoesLocalStatus | demo.ts:181-188 | for a task that is not IN_PROGRESS, a run of the status query does not depend on the status reply |
| Handlers.PollOfSettledTaskRefreshesFirst | demo.ts:187-200 | for such a task the log only grows, and the first call, if any, is the task-list refresh, and no new call is a status call |
| Handlers.PollAsksWhenInProgress | demo.ts:183-186 | for an IN_PROGRESS task with the query enabled, the run's first call is the status call |
| Handlers.CompletionPathsAgree | demo.ts:196-202 | the status query and the wait loop of `handleTranscribe` (`demo.ts:344-350`), reading COMPLETED and fetching the same task, both select that task and load its formatted content |
| Handlers.OtherStatusChangesNothing | demo.ts:196-207 | a status other than COMPLETED leaves everything but the call log as it was |
| Handlers.UnfinishedWaitKeepsBuffer | demo.ts:339-354 | a wait that does not end in COMPLETED does not write the buffer itself, and the task is at most marked IN_PROGRESS; in the program, the IN_PROGRESS mark then re-runs the task-change effect (`demo.ts:609-611`), which reloads the buffer from the task |
| Handlers.ReconcileIdempotent | demo.ts:200-202 | applying the completed step twice with the same fetched task is applying it once |
| Handlers.ReconciledBufferStable | demo.ts:202 | the reconciled buffer is already in editor form |
| Handlers.FileChangeClearsFlag | demo.ts:264-298 | after a file upload, whatever its outcome, the task's spinner is off, the list is the old one without the task's entries, and every other task's spinner is as it was |
| Handlers.RecordingUploadClearsFlag | demo.ts:553-566 | the same after the recording upload |
| Handlers.FileChangeWithoutFile | demo.ts:257-263 | with no file chosen, the remote IN_PROGRESS update still happens and its answer is selected; spinners and error are untouched |
| Handlers.FileChangeOutcome | demo.ts:275-294 | a successful upload clears the error and selects the uploaded task; a failed one sets the failure message and keeps the task from the remote IN_PROGRESS update, and nothing else differs from that selection but the call log and the flag list |
| Handlers.SummarizeOutcome | demo.ts:433-453 | on success the saved task is shown IN_PROGRESS; on any failure the task as it was before the action is shown FAILED; the handler itself does not write the buffer, but the selection it makes re-runs the task-change effect (`demo.ts:609-611`), which reloads it |
| Handlers.RemoveFileKeepsMedia | demo.ts:302-317 | removing the file drops only the media's download URL and clears the error |
| Handlers.WaitingEditNeedsSameTask | demo.ts:387-400 | a waiting edit still reaches the buffer after a new selection with the same task id; after a selection with another id it is cancelled, and firing the debounce changes nothing |
| Handlers.SwitchingTasksDropsWaitingEdit | demo.ts:212-222 | switching to another task and back before the debounce fires loses the typed content: the buffer holds the task's own formatted content, and nothing is left to apply |
| Handlers.PollRepeatsWhileInProgress | demo.ts:179-208 | a run for an IN_PROGRESS task schedules the next run every 5000 ms unless it completes with a fetched task; then the fetched task's status decides |
| Handlers.AwaitStepCalls | demo.ts:337-350 | the wait's log is the old log, then the task-list refresh, then exactly one status call per reply consumed, then on COMPLETED the fetch of the task |
| Handlers.EditingFlagStaysDown | demo.ts:393-409 | from a state with the editing flag down, no handler leaves it up, so the save handler's editing check never fires |
| Component.WaitForTerminal | demo.ts:339-343 | the `while` loop consumes the status replies exactly as the wait does |
| Component.AudioTranscribe.constructor | demo.ts:69-100 | mounted on a task with an empty buffer, nothing uploading, no dialog open, nothing called, not recording |
| Component.AudioTranscribe.PollStatus | demo.ts:179-207 | one enabled run of the status query and its `onSuccess` takes the poll step |
| Component.AudioTranscribe.HandleTaskChange | demo.ts:212-222 | selects the new task (a waiting edit of another task is cancelled), cancels its query unless it is IN_PROGRESS, and loads its formatted content |
| Component.AudioTranscribe.HandleWebsite | demo.ts:224-244 | takes the website step: gate, dialog closed, task marked IN_PROGRESS, then the scraped task or the error text |
| Component.AudioTranscribe.HandleFileChange | demo.ts:246-300 | takes the file-change step |
| Component.AudioTranscribe.SetSelectedTask | demo.ts:387-400 | `setSelectedTask`: takes the selection step, so a new task id cancels the waiting edit |
| Component.AudioTranscribe.Upload | demo.ts:264-298 | spinner raised, upload sent, spinner cleared in the `finally` |
| Component.AudioTranscribe.MarkFlag | demo.ts:264-273 | the spinner list is replaced by its find-or-append update and nothing else changes |
| Component.AudioTranscribe.AppendFlag | demo.ts:555 | the spinner list is replaced by its append update and nothing else changes |
| Component.AudioTranscribe.ClearFlag | demo.ts:297 | the spinner list is replaced by its cleanup filter and nothing else changes |
| Component.AudioTranscribe.Send | demo.ts:275-294 | PDFs go to upload-and-summarise; other files are uploaded, then transcribed; then the result or the failure message |
| Component.AudioTranscribe.HandleRemoveFile | demo.ts:302-317 | takes the remove-file step |
| Component.AudioTranscribe.HandleTranscribe | demo.ts:319-358 | takes the transcribe step: status check, IN_PROGRESS, start, list refresh, wait, reconciliation on COMPLETED |
| Component.AudioTranscribe.AwaitCompletion | demo.ts:337-354 | takes the waiting part of that step |
| Component.AudioTranscribe.HandleYouTubeTranscribe | demo.ts:360-384 | takes the YouTube step, including the invalid-URL error |
| Component.AudioTranscribe.HandleEditTranscription | demo.ts:387-391 | takes the editor's content only for the selected task |
| Component.AudioTranscribe.ScheduleEdit | demo.ts:393-400 | a debounced call replaces whatever edit is still waiting |
| Component.AudioTranscribe.FlushEdit | demo.ts:393-398 | the waiting edit is applied between raising and lowering the editing flag, which is down afterwards |
| Component.AudioTranscribe.HandleSaveTranscription | demo.ts:402-422 | takes the save step |
| Component.AudioTranscribe.HandleSummarizeAI | demo.ts:424-454 | takes the summarise step |
| Component.AudioTranscribe.HandleCombineTasks | demo.ts:459-461 | opens the combine dialog and nothing else |
| Component.AudioTranscribe.OnCombineTasks | demo.ts:463-485 | takes the combine step: the combined task selected, the task list invalidated, the dialog closed |
| Component.AudioTranscribe.StopRecording | demo.ts:543-572 | when the recording stops, the session is idle with the counter kept and the recording-upload step follows; otherwise nothing changes |
| Component.AudioTranscribe.UploadRecording | demo.ts:553-567 | spinner appended, audio sent, spinner cleared in the `finally` |
| Component.AudioTranscribe.SendRecording | demo.ts:554-563 | upload, then transcription, then the task selected and the list refreshed |
| Component.AudioTranscribe.HandleRecordClick | demo.ts:574-584 | behind the credits gate, stops when recording and starts otherwise, keeping the one-timer invariant; a stop keeps the seconds counter, and a recorder that fails to start or stop leaves the session unchanged |
| Component.AudioTranscribe.HandlePauseRecording | demo.ts:586-600 | toggles the pause while recording, keeping the one-timer invariant |
| Component.AudioTranscribe.Tick | demo.ts:535-537 | a live interval adds one second; the recording and pause flags and the live intervals stay as they were |
| Component.AudioTranscribe.Teardown | demo.ts:617-627 | the waiting edit is cancelled and the selection cleared |

## Left out

- Srt.ParseFloat: reads no sign, exponent or `Infinity`. It reads only ASCII digits with an optional
  `.fraction`, so a negative or exponent timestamp is not modelled, and neither is the NaN of
  `"Infinity:-Infinity"`.
- Srt.TimeToSeconds: seconds are exact reals, not IEEE doubles; rounding is not modelled.
- Handlers.Reconcile: a task's `content` is always a string here, so the `|| ''` fallback for a
  missing content (`demo.ts:202`) is not modelled. `CompletionPathsAgree` says nothing about a task
  fetched without content.
- Recording.RecordingSession.Start: requires that no recording is running. Its only caller,
  `handleRecordClick`, guarantees this. The recorder's setup and its failures are one `recorderReady`
  input.
- Component.AudioTranscribe.StopRecording: the recorder's `stopRecording` is one `recorderStopped`
  input, and a missing recorder counts as one that fails.
- Component.AudioTranscribe.HandleTranscribe: the replies to the wait loop's status calls are a
  finite sequence. When all of them are IN_PROGRESS, the state is the one while the loop still waits.
  The 10-second sleep is not modelled.
- Component.AudioTranscribe.FlushEdit: the 100 ms delay of lodash `debounce` is not modelled. React's
  batching of `setIsEditing(true)` and `setIsEditing(false)` is not modelled either; the model keeps
  the source's order.
- Component.AudioTranscribe.HandleYouTubeTranscribe: `extractYouTubeId` (from `lib/utils`) is not part
  of this model. Its result is an input.
- Component.AudioTranscribe.PollStatus: React Query's scheduling, caching, retries, cancellation and
  invalidation are not modelled. A run of the query is an event, and `cancelQueries` /
  `invalidateQueries` are recorded as events.
- The `api` module is not part of this model. Each call is a logged call with its outcome as an
  input, and progress callbacks and console logging are dropped.
- No interleaving is modelled: handlers run to completion one at a time, so races between the poller,
  the wait loop and a task switch are out of the model.
- Stale `useCallback` closures are not modelled, although they arise even when handlers run one at a
  time, because several dependency lists leave out values the handler reads. Every handler in the
  model reads the current selected task and the one constant credit balance. In the program:
  - `handleSaveAsFile` (`demo.ts:487-510`) and `handleRemoveFile` (`demo.ts:302-317`) depend on
    `selectedTask.id` only, so they keep the task object from the last change of id. After a
    transcription completes on the same task, the export still sees the old `transcription_result`.
  - `handleTranscribe` (`demo.ts:319-358`) and `handleYouTubeTranscribe` (`demo.ts:360-384`) spread a
    `selectedTask` captured at the last change of the listed fields, not the current one.
  - `credits` is missing from the lists of `handleFileChange` (`demo.ts:300`), `handleTranscribe`
    (`:358`), `handleYouTubeTranscribe` (`:384`), `onCombineTasks` (`:485`, rebuilt only when the
    token changes) and `handleRecordClick` (`:584`). Their
    credits gate can read an older balance.
- The effect that re-runs `handleTaskChange` whenever the selection changes (`demo.ts:609-611`) is the
  separate event `HandleTaskChange`.
- The zustand stores' `addTask` / `updateTask` mirrors, the `isSaving` flag, the audio player, Quill
  loading and other view-only state are left out.
- The vmsg recorder, the DOM wrapper and the Blob/File/URL download plumbing are left out. The export
  is modelled as the file name and content it would download.
- Rendering (JSX, dialogs, animation) is left out.
