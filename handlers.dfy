/**
 * What each handler of the `AudioTranscribe` component does to the
 * component state, as a pure step from the state before the event to the
 * state after it. The class in the `Component` module runs the handlers
 * imperatively and is proved to take exactly these steps; the lemmas at the
 * end state the guards and the completion reconciliation over the steps.
 *
 * Every awaited `api` call is an input of type `Remote` that gives the call's
 * outcome, and every call a handler makes is appended to `calls`, so "no
 * remote call" can be stated. `token` is the effective token, `""` when there
 * is none.
 */
module Handlers {
  import opened Wrappers
  import opened Tasks
  import opened UploadFlags
  import opened Formatting

  /** An edit waiting in the debounce: the editor's content and the task it was typed for. */
  datatype Edit = Edit(content: string, taskId: string)

  /** The kind of file picked in the upload input: a PDF by its MIME type, or anything else. */
  datatype FileKind = PdfFile | OtherFile

  /** The component state the handlers read and write. */
  datatype State = State(
    selectedTask: Option<Task>,
    editedTranscription: string,
    isEditing: bool,
    pendingEdit: Option<Edit>,
    showUpgradeModal: bool,
    uploadError: Option<string>,
    isUploading: seq<UploadFlag>,
    youTubeModalOpen: bool,
    websiteModalOpen: bool,
    combineModalOpen: bool,
    calls: seq<Call>,
    queryEvents: seq<QueryEvent>)

  const UploadFailedText := "Failed to upload file. Please try again."
  const InvalidYouTubeText := "Invalid YouTube URL"

  /** What a gated handler does when the credit balance is used up. */
  function OutOfCredits(s: State): (r: State)
    ensures r.showUpgradeModal && r.(showUpgradeModal := s.showUpgradeModal) == s
  {
    s.(showUpgradeModal := true)
  }

  /**
   * `setSelectedTask(t)`. The debounced edit handler is rebuilt whenever the
   * selected task's id changes, and the rebuild cancels the edit still
   * waiting in the old one; a new task object with the same id keeps it.
   */
  function Select(s: State, t: Task): State
  {
    var sameTask := s.selectedTask.Some? && s.selectedTask.value.id == t.id;
    s.(selectedTask := Some(t), pendingEdit := if sameTask then s.pendingEdit else None)
  }

  // ---------------------------------------------------------------------------
  // Completion reconciliation
  // ---------------------------------------------------------------------------

  /**
   * The step both completion paths take once the task reads COMPLETED: the
   * fetched task becomes the selected task and its content, formatted for the
   * editor, becomes the edit buffer.
   */
  function Reconcile(s: State, fetched: Task): (r: State)
    ensures r.selectedTask == Some(fetched)
    ensures '\n' !in r.editedTranscription
    ensures '\n' !in fetched.content ==> r.editedTranscription == fetched.content
    ensures r.pendingEdit == s.pendingEdit || r.pendingEdit == None
    ensures r.(selectedTask := s.selectedTask, editedTranscription := s.editedTranscription, pendingEdit := s.pendingEdit) == s
  {
    Select(s, fetched).(editedTranscription := FormatContent(fetched.content))
  }

  /** `refetchInterval`: the status query repeats every 5000 ms exactly while the task is IN_PROGRESS. */
  function RefetchInterval(status: Status): (r: Option<nat>)
    ensures r.Some? <==> status == InProgress
    ensures r.Some? ==> r.value == 5000
  {
    if status == InProgress then Some(5000) else None
  }

  /**
   * One enabled run of the `['task', id]` query and its `onSuccess`: the
   * remote status is asked for only while the task is IN_PROGRESS, otherwise
   * the local status is echoed; on COMPLETED the task list is refreshed (not
   * awaited) and the fetched task is reconciled. A failing call only logs.
   * The query is disabled without a token or a task id.
   */
  function PollStep(s: State, token: string, statusReply: Remote<Status>, fetched: Remote<Task>): (r: State)
    requires s.selectedTask.Some?
    ensures r.isEditing == s.isEditing
  {
    var task := s.selectedTask.value;
    if token == "" || task.id == "" then s
    else
      var asked := task.status == InProgress;
      var status := if asked then statusReply else Ok(task.status);
      var s1 := if asked then s.(calls := s.calls + [IsTaskTranscribing(task.id)]) else s;
      if status != Ok(Completed) then s1
      else
        var s2 := s1.(calls := s1.calls + [FetchTasks, FetchTaskById(task.id)]);
        if fetched.Ok? then Reconcile(s2, fetched.value) else s2
  }

  /** The outcome of the `handleTranscribe` wait loop over a run of status replies. */
  datatype WaitOutcome =
    | Settled(status: Status)
    | Broken(message: Option<string>)
    | StillWaiting

  /**
   * The loop of `handleTranscribe` that runs while the status reads
   * IN_PROGRESS, over the successive replies of `isTaskTranscribing`: it
   * stops at the first reply that is not IN_PROGRESS or at the first failing
   * call, and gives how many replies it consumed.
   * `StillWaiting` means every reply given was IN_PROGRESS.
   */
  function Wait(polls: seq<Remote<Status>>): (r: (WaitOutcome, nat))
    ensures r.1 <= |polls|
  {
    if polls == [] then (StillWaiting, 0)
    else
      match polls[0]
      case Err(m) => (Broken(m), 1)
      case Ok(status) =>
        if status != InProgress then (Settled(status), 1)
        else
          var w := Wait(polls[1..]);
          (w.0, w.1 + 1)
  }

  /**
   * The wait consumes IN_PROGRESS replies only, and ends on the reply that
   * settles or breaks it; it runs out of replies exactly when all of them
   * were IN_PROGRESS.
   */
  lemma {:induction false} WaitSpec(polls: seq<Remote<Status>>)
    ensures var r := Wait(polls);
      && (forall j :: 0 <= j < r.1 - 1 ==> polls[j] == Ok(InProgress))
      && (r.0.Settled? ==> r.1 > 0 && polls[r.1 - 1] == Ok(r.0.status) && r.0.status != InProgress)
      && (r.0.Broken? ==> r.1 > 0 && polls[r.1 - 1] == Err(r.0.message))
      && (r.0.StillWaiting? <==> forall j :: 0 <= j < |polls| ==> polls[j] == Ok(InProgress))
      && (r.0.StillWaiting? ==> r.1 == |polls|)
  {
    if polls != [] && polls[0] == Ok(InProgress) {
      WaitSpec(polls[1..]);
      assert forall j :: 1 <= j < |polls| ==> polls[j] == polls[1..][j - 1];
    }
  }

  /** `n` status calls for `taskId`. */
  function StatusCalls(taskId: string, n: nat): (r: seq<Call>)
    ensures |r| == n && forall j :: 0 <= j < n ==> r[j] == IsTaskTranscribing(taskId)
  {
    seq(n, _ => IsTaskTranscribing(taskId))
  }

  /**
   * The waiting part of `handleTranscribe`: refresh the task list, consume
   * status replies until one leaves IN_PROGRESS, and on COMPLETED fetch and
   * reconcile the task.
   */
  function AwaitStep(s: State, id: string, polls: seq<Remote<Status>>, fetched: Remote<Task>): (r: State)
    ensures r.isEditing == s.isEditing
  {
    var w := Wait(polls);
    var s3 := s.(calls := s.calls + [FetchTasks] + StatusCalls(id, w.1));
    if w.0 != Settled(Completed) then s3
    else
      var s4 := s3.(calls := s3.calls + [FetchTaskById(id)]);
      if fetched.Ok? then Reconcile(s4, fetched.value) else s4
  }

  /**
   * `handleTranscribe`: check the status, mark the task IN_PROGRESS, start the
   * transcription, refresh the task list, then wait until the status leaves
   * IN_PROGRESS; on COMPLETED the fetched task is reconciled. A failing call
   * ends the handler where it stands.
   */
  function TranscribeStep(s: State, token: string, credits: int, first: Remote<Status>, started: Remote<()>,
                          polls: seq<Remote<Status>>, fetched: Remote<Task>): (r: State)
    requires s.selectedTask.Some?
    ensures r.isEditing == s.isEditing
  {
    var before := s.selectedTask.value;
    var id := before.id;
    if credits <= 0 then OutOfCredits(s)
    else if token == "" then s
    else
      var s1 := s.(calls := s.calls + [IsTaskTranscribing(id)]);
      if first.Err? then s1
      else
        var s2 := Select(s1, before.(status := InProgress)).(calls := s1.calls + [TranscribeTask(id)]);
        if started.Err? then s2
        else
          AwaitStep(s2, id, polls, fetched)
  }

  // ---------------------------------------------------------------------------
  // The other handlers
  // ---------------------------------------------------------------------------

  /**
   * `handleTaskChange`, also run by the effect whenever the selected task
   * changes: select the task, cancel the query keyed by its id unless it is
   * IN_PROGRESS, and load its formatted content into the edit buffer.
   */
  function TaskChangeStep(s: State, newTask: Task): (r: State)
    ensures r.isEditing == s.isEditing
  {
    Select(s, newTask).(
       editedTranscription := FormatContent(newTask.content),
       queryEvents := s.queryEvents + (if newTask.status != InProgress then [CancelTaskQuery(newTask.id)] else []))
  }

  /**
   * `handleWebsite`: close the dialog, mark the current task IN_PROGRESS and
   * scrape the page; the scraped task is selected, or the error is reported.
   */
  function WebsiteStep(s: State, token: string, credits: int, url: string, scraped: Remote<Task>): (r: State)
    requires s.selectedTask.Some?
    ensures r.isEditing == s.isEditing
  {
    if credits <= 0 then OutOfCredits(s)
    else if token == "" then s
    else
      var s1 := Select(s, s.selectedTask.value.(status := InProgress)).(
                   websiteModalOpen := false,
                   calls := s.calls + [ScrapeWebsite(url)]);
      match scraped
      case Ok(t) => Select(s1, t)
      case Err(m) => s1.(uploadError := Some("Website scraping failed: " + ErrorText(m)))
  }

  /**
   * `handleFileChange`: the task is marked IN_PROGRESS remotely before the
   * file is looked at (a failure there ends the handler). With a file, its
   * flag is raised and the error cleared, the PDF branch or the upload and
   * transcribe branch runs, any failure sets the fixed upload error, and in
   * the end the flag list loses every entry of the task.
   */
  function FileChangeStep(s: State, token: string, credits: int, file: Option<FileKind>,
                          updated: Remote<Task>, uploaded: Remote<Task>, transcribed: Remote<()>): (r: State)
    requires s.selectedTask.Some?
    ensures r.isEditing == s.isEditing
  {
    var id := s.selectedTask.value.id;
    if credits <= 0 then OutOfCredits(s)
    else if token == "" then s
    else
      var s1 := s.(calls := s.calls + [UpdateTask(id, SetStatus(InProgress))]);
      if updated.Err? then s1
      else
        var s2 := Select(s1, updated.value);
        if file.None? then s2
        else UploadStep(s2, id, file.value, uploaded, transcribed)
  }

  /**
   * The upload part of `handleFileChange`: the spinner raised for `id`, the
   * error cleared, the upload (PDFs summarised on the way, other files then
   * transcribed), the result or the failure message, and the spinner cleared
   * in the `finally`.
   */
  function UploadStep(s: State, id: string, kind: FileKind, uploaded: Remote<Task>, transcribed: Remote<()>): (r: State)
    ensures r.isEditing == s.isEditing
  {
    // raised before the upload, cleared in its `finally`
    var raised := s.(isUploading := MarkUploading(s.isUploading, id));
    var sent := SendStep(raised, id, kind, uploaded, transcribed);
    sent.(isUploading := ClearUploading(sent.isUploading, id))
  }

  /**
   * The `try`/`catch` of the upload: the error cleared, the file sent (PDFs
   * summarised on the way, other files then transcribed), and the returned
   * task or the failure message.
   */
  function SendStep(s: State, id: string, kind: FileKind, uploaded: Remote<Task>, transcribed: Remote<()>): (r: State)
    ensures r.isUploading == s.isUploading
    ensures r.isEditing == s.isEditing
  {
    var s3 := s.(uploadError := None);
    var s4 :=
      if kind == PdfFile then s3.(calls := s3.calls + [UploadAndSummarizePdf(id)])
      else
        var u := s3.(calls := s3.calls + [UploadFile(id)]);
        if uploaded.Ok? then u.(calls := u.calls + [TranscribeTask(id)]) else u;
    var ok := uploaded.Ok? && (kind == PdfFile || transcribed.Ok?);
    if ok then Select(s4, uploaded.value) else s4.(uploadError := Some(UploadFailedText))
  }

  /**
   * `handleRemoveFile`: clear the upload error, ask the server to drop the
   * download URL when the task has one (the mutation throws before calling
   * out when there is no token), and drop the media's URL locally.
   */
  function RemoveFileStep(s: State, token: string): (r: State)
    requires s.selectedTask.Some?
    ensures r.isEditing == s.isEditing
  {
    var task := s.selectedTask.value;
    var c := if Truthy(task.downloadUrl) && token != "" then [UpdateTask(task.id, ClearDownload(task.name, task.content))] else [];
    Select(s, WithoutMediaUrl(task)).(uploadError := None, calls := s.calls + c)
  }

  /**
   * `handleYouTubeTranscribe`, given what `extractYouTubeId` made of the URL:
   * close the dialog, reject a missing id with an error, otherwise mark the
   * task IN_PROGRESS and start the transcription; a failure is reported.
   */
  function YouTubeStep(s: State, token: string, credits: int, youTubeId: Option<string>, reply: Remote<()>): (r: State)
    requires s.selectedTask.Some?
    ensures r.isEditing == s.isEditing
  {
    if credits <= 0 then OutOfCredits(s).(youTubeModalOpen := false)
    else if token == "" then s
    else if !Truthy(youTubeId) then
      s.(youTubeModalOpen := false, uploadError := Some("YouTube transcription failed: " + InvalidYouTubeText))
    else
      var before := s.selectedTask.value;
      var s1 := Select(s, before.(status := InProgress)).(
                   youTubeModalOpen := false,
                   calls := s.calls + [TranscribeYouTube(before.id, youTubeId.value)]);
      if reply.Ok? then s1 else s1.(uploadError := Some("YouTube transcription failed: " + ErrorText(reply.message)))
  }

  /** `handleEditTranscription`: take the editor's content only when it belongs to the selected task. */
  function EditStep(s: State, content: string, taskId: string): (r: State)
    requires s.selectedTask.Some?
    ensures r.isEditing == s.isEditing
  {
    if taskId == s.selectedTask.value.id then s.(editedTranscription := content) else s
  }

  /**
   * The debounce interval elapses: the waiting edit, if any, is applied
   * between `setIsEditing(true)` and `setIsEditing(false)`.
   */
  function FlushStep(s: State): State
    requires s.selectedTask.Some?
  {
    match s.pendingEdit
    case None => s
    case Some(e) => EditStep(s.(pendingEdit := None), e.content, e.taskId).(isEditing := false)
  }

  /** `handleSaveTranscription`: with a token and no edit in progress, save the buffer as the content. */
  function SaveStep(s: State, token: string, saved: Remote<Task>): (r: State)
    requires s.selectedTask.Some?
    ensures r.isEditing == s.isEditing
  {
    if token == "" || s.isEditing then s
    else
      var s1 := s.(calls := s.calls + [UpdateTask(s.selectedTask.value.id, SetContent(s.editedTranscription))]);
      if saved.Ok? then Select(s1, saved.value) else s1
  }

  /**
   * `handleSummarizeAI`: save the buffer, mark the saved task IN_PROGRESS and
   * ask for the summary; if either call fails, the task as it was before the
   * action is marked FAILED.
   */
  function SummarizeStep(s: State, token: string, credits: int, language: string,
                         saved: Remote<Task>, summarized: Remote<()>): (r: State)
    requires s.selectedTask.Some?
    ensures r.isEditing == s.isEditing
  {
    var before := s.selectedTask.value;
    if credits <= 0 then OutOfCredits(s)
    else if token == "" then s
    else
      var s1 := s.(calls := s.calls + [UpdateTask(before.id, SetContent(s.editedTranscription))]);
      if saved.Err? then Select(s1, before.(status := Failed))
      else
        var s2 := Select(s1, saved.value.(status := InProgress)).(
                      calls := s1.calls + [SummarizeTask(before.id, language)]);
        if summarized.Ok? then s2 else Select(s2, before.(status := Failed))
  }

  /**
   * `onCombineTasks`: with a token and at least two ids, combine them; on
   * success the combined task is selected, the task list is invalidated and
   * the dialog closes.
   */
  function CombineStep(s: State, token: string, credits: int, taskIds: seq<string>, combined: Remote<Task>): (r: State)
    ensures r.isEditing == s.isEditing
  {
    if credits <= 0 then OutOfCredits(s)
    else if token == "" || |taskIds| < 2 then s
    else
      var s1 := s.(calls := s.calls + [CombineTasks(taskIds)]);
      match combined
      case Err(_) => s1
      case Ok(t) => Select(s1, t).(queryEvents := s1.queryEvents + [InvalidateTaskList], combineModalOpen := false)
  }

  /**
   * The upload half of `stopRecording`, once the recorder has handed back its
   * audio: with a token, the audio is uploaded under an appended flag, the
   * transcription is started and the task list refreshed; failures are only
   * logged; in the end the flag list loses every entry of the task.
   */
  function RecordingUploadStep(s: State, token: string, uploaded: Remote<Task>, transcribed: Remote<()>): (r: State)
    requires s.selectedTask.Some?
    ensures r.isEditing == s.isEditing
  {
    var id := s.selectedTask.value.id;
    if token == "" then s
    else
      // raised before the upload, cleared in its `finally`
      var raised := s.(isUploading := AppendUploading(s.isUploading, id));
      var sent := RecordingSendStep(raised, id, uploaded, transcribed);
      sent.(isUploading := ClearUploading(sent.isUploading, id))
  }

  /**
   * The `try` of the recording upload: the audio uploaded, then transcribed,
   * and the returned task selected and the task list refreshed once both
   * succeed; a failure only stops the sequence.
   */
  function RecordingSendStep(s: State, id: string, uploaded: Remote<Task>, transcribed: Remote<()>): (r: State)
    ensures r.isUploading == s.isUploading
    ensures r.isEditing == s.isEditing
  {
    var s1 := s.(calls := s.calls + [UploadFile(id)]);
    if uploaded.Err? then s1
    else
      var u := s1.(calls := s1.calls + [TranscribeTask(id)]);
      if transcribed.Err? then u
      else Select(u, uploaded.value).(calls := u.calls + [FetchTasks])
  }

  // ---------------------------------------------------------------------------
  // Properties of the steps
  // ---------------------------------------------------------------------------

  /**
   * With no credits left, every gated handler only raises the upgrade dialog
   * and calls nothing; the YouTube handler also closes its own dialog.
   */
  lemma CreditsGate(s: State, token: string, credits: int, url: string, file: Option<FileKind>,
                    task: Remote<Task>, status: Remote<Status>, done: Remote<()>,
                    polls: seq<Remote<Status>>, youTubeId: Option<string>, taskIds: seq<string>)
    requires s.selectedTask.Some? && credits <= 0
    ensures WebsiteStep(s, token, credits, url, task) == s.(showUpgradeModal := true)
    ensures FileChangeStep(s, token, credits, file, task, task, done) == s.(showUpgradeModal := true)
    ensures TranscribeStep(s, token, credits, status, done, polls, task) == s.(showUpgradeModal := true)
    ensures YouTubeStep(s, token, credits, youTubeId, done) == s.(showUpgradeModal := true, youTubeModalOpen := false)
    ensures SummarizeStep(s, token, credits, url, task, done) == s.(showUpgradeModal := true)
    ensures CombineStep(s, token, credits, taskIds, task) == s.(showUpgradeModal := true)
  {
  }

  /** Without a token no handler calls the server. */
  lemma NoTokenNoCall(s: State, credits: int, url: string, file: Option<FileKind>,
                      task: Remote<Task>, status: Remote<Status>, done: Remote<()>,
                      polls: seq<Remote<Status>>, youTubeId: Option<string>, taskIds: seq<string>)
    requires s.selectedTask.Some?
    ensures PollStep(s, "", status, task).calls == s.calls
    ensures WebsiteStep(s, "", credits, url, task).calls == s.calls
    ensures FileChangeStep(s, "", credits, file, task, task, done).calls == s.calls
    ensures RemoveFileStep(s, "").calls == s.calls
    ensures TranscribeStep(s, "", credits, status, done, polls, task).calls == s.calls
    ensures YouTubeStep(s, "", credits, youTubeId, done).calls == s.calls
    ensures SaveStep(s, "", task).calls == s.calls
    ensures SummarizeStep(s, "", credits, url, task, done).calls == s.calls
    ensures CombineStep(s, "", credits, taskIds, task).calls == s.calls
    ensures RecordingUploadStep(s, "", task, done).calls == s.calls
  {
    assert s.calls + [] == s.calls;
  }

  /** Past the credits gate, combining without a token or with fewer than two tasks does nothing at all. */
  lemma CombineGuard(s: State, token: string, credits: int, taskIds: seq<string>, combined: Remote<Task>)
    requires credits > 0 && (token == "" || |taskIds| < 2)
    ensures CombineStep(s, token, credits, taskIds, combined) == s
  {
  }

  /** Saving without a token, or while an edit is being applied, does nothing at all. */
  lemma SaveGuard(s: State, token: string, saved: Remote<Task>)
    requires s.selectedTask.Some? && (token == "" || s.isEditing)
    ensures SaveStep(s, token, saved) == s
  {
  }

  /** An edit typed for another task leaves the buffer, and everything else, as it was. */
  lemma EditForOtherTask(s: State, content: string, taskId: string)
    requires s.selectedTask.Some? && taskId != s.selectedTask.value.id
    ensures EditStep(s, content, taskId) == s
    ensures FlushStep(s.(pendingEdit := Some(Edit(content, taskId)))) == s.(pendingEdit := None, isEditing := false)
  {
  }

  /**
   * The status query asks the server only for an IN_PROGRESS task: for any
   * other task the run does not depend on the status reply.
   */
  lemma PollEchoesLocalStatus(s: State, token: string, reply1: Remote<Status>, reply2: Remote<Status>, fetched: Remote<Task>)
    requires s.selectedTask.Some? && s.selectedTask.value.status != InProgress
    ensures PollStep(s, token, reply1, fetched) == PollStep(s, token, reply2, fetched)
  {
  }

  /** ... and the first call such a run makes, if any, is the task-list refresh, never a status call. */
  lemma PollOfSettledTaskRefreshesFirst(s: State, token: string, reply: Remote<Status>, fetched: Remote<Task>)
    requires s.selectedTask.Some? && s.selectedTask.value.status != InProgress
    ensures var r := PollStep(s, token, reply, fetched);
      |r.calls| >= |s.calls| && r.calls[..|s.calls|] == s.calls &&
      (|r.calls| > |s.calls| ==> r.calls[|s.calls|] == FetchTasks) &&
      forall j :: |s.calls| <= j < |r.calls| ==> !r.calls[j].IsTaskTranscribing?
  {
    var r := PollStep(s, token, reply, fetched);
    if token != "" && s.selectedTask.value.id != "" && s.selectedTask.value.status == Completed {
      var c := s.calls + [FetchTasks, FetchTaskById(s.selectedTask.value.id)];
      assert r.calls == c;
      assert c[..|s.calls|] == s.calls;
    } else {
      assert r.calls == s.calls;
    }
  }

  /** For an IN_PROGRESS task, with the query enabled, the run's first call is the status call. */
  lemma PollAsksWhenInProgress(s: State, token: string, reply: Remote<Status>, fetched: Remote<Task>)
    requires s.selectedTask.Some? && s.selectedTask.value.status == InProgress
    requires token != "" && s.selectedTask.value.id != ""
    ensures var r := PollStep(s, token, reply, fetched);
      |r.calls| > |s.calls| && r.calls[..|s.calls|] == s.calls &&
      r.calls[|s.calls|] == IsTaskTranscribing(s.selectedTask.value.id)
  {
    var id := s.selectedTask.value.id;
    var c1 := s.calls + [IsTaskTranscribing(id)];
    assert c1[..|s.calls|] == s.calls;
    var c2 := c1 + [FetchTasks, FetchTaskById(id)];
    assert c2[..|s.calls|] == s.calls by { assert c2[..|c1|] == c1; }
  }

  /**
   * Both completion paths agree: when the status query and the wait loop of
   * `handleTranscribe` read COMPLETED and fetch the same task, both select
   * that task and load its formatted content into the buffer.
   */
  lemma CompletionPathsAgree(s: State, token: string, credits: int, reply: Remote<Status>, first: Remote<Status>,
                             started: Remote<()>, polls: seq<Remote<Status>>, t: Task)
    requires s.selectedTask.Some? && token != "" && s.selectedTask.value.id != "" && credits > 0
    requires (if s.selectedTask.value.status == InProgress then reply else Ok(s.selectedTask.value.status)) == Ok(Completed)
    requires first.Ok? && started.Ok? && Wait(polls).0 == Settled(Completed)
    ensures var p := PollStep(s, token, reply, Ok(t));
      var q := TranscribeStep(s, token, credits, first, started, polls, Ok(t));
      && p.selectedTask == q.selectedTask == Some(t)
      && p.editedTranscription == q.editedTranscription == FormatContent(t.content)
  {
  }

  /** A status other than COMPLETED leaves everything but the call log as it was. */
  lemma OtherStatusChangesNothing(s: State, token: string, reply: Remote<Status>, fetched: Remote<Task>)
    requires s.selectedTask.Some?
    requires (if s.selectedTask.value.status == InProgress then reply else Ok(s.selectedTask.value.status)) != Ok(Completed)
    ensures PollStep(s, token, reply, fetched).(calls := s.calls) == s
  {
  }

  /**
   * A wait that does not end in COMPLETED leaves the buffer alone and the
   * selected task at most marked IN_PROGRESS.
   */
  lemma UnfinishedWaitKeepsBuffer(s: State, token: string, credits: int, first: Remote<Status>, started: Remote<()>,
                                  polls: seq<Remote<Status>>, fetched: Remote<Task>)
    requires s.selectedTask.Some? && credits > 0
    requires Wait(polls).0 != Settled(Completed)
    ensures var q := TranscribeStep(s, token, credits, first, started, polls, fetched);
      q.editedTranscription == s.editedTranscription &&
      (q.selectedTask == s.selectedTask || q.selectedTask == Some(s.selectedTask.value.(status := InProgress)))
  {
  }

  /** Applying the completed step twice with the same fetched task is applying it once. */
  lemma ReconcileIdempotent(s: State, fetched: Task)
    ensures Reconcile(Reconcile(s, fetched), fetched) == Reconcile(s, fetched)
  {
  }

  /** The reconciled buffer is already in editor form: formatting it again changes nothing. */
  lemma ReconciledBufferStable(s: State, fetched: Task)
    ensures FormatContent(Reconcile(s, fetched).editedTranscription) == Reconcile(s, fetched).editedTranscription
  {
    FormatContentIdempotent(fetched.content);
  }

  /**
   * After a file upload the task's spinner is off whatever happened, every
   * other task's spinner is as it was, and the flag list is the old one
   * without the task's entries.
   */
  lemma FileChangeClearsFlag(s: State, token: string, credits: int, file: Option<FileKind>,
                             updated: Remote<Task>, uploaded: Remote<Task>, transcribed: Remote<()>, other: string)
    requires s.selectedTask.Some? && credits > 0 && token != "" && updated.Ok? && file.Some?
    requires other != s.selectedTask.value.id
    ensures var r := FileChangeStep(s, token, credits, file, updated, uploaded, transcribed);
      var id := s.selectedTask.value.id;
      && r.isUploading == ClearUploading(s.isUploading, id)
      && !IsUploading(r.isUploading, id)
      && (IsUploading(r.isUploading, other) <==> IsUploading(s.isUploading, other))
  {
    var id := s.selectedTask.value.id;
    ClearAfterMark(s.isUploading, id);
    ClearUploadingSpec(s.isUploading, id);
    ClearOther(s.isUploading, id, other);
  }

  /** The same holds after the recording upload, whose flag is appended rather than found. */
  lemma RecordingUploadClearsFlag(s: State, token: string, uploaded: Remote<Task>, transcribed: Remote<()>, other: string)
    requires s.selectedTask.Some? && token != "" && other != s.selectedTask.value.id
    ensures var r := RecordingUploadStep(s, token, uploaded, transcribed);
      var id := s.selectedTask.value.id;
      && r.isUploading == ClearUploading(s.isUploading, id)
      && !IsUploading(r.isUploading, id)
      && (IsUploading(r.isUploading, other) <==> IsUploading(s.isUploading, other))
  {
    var id := s.selectedTask.value.id;
    ClearAfterAppend(s.isUploading, id);
    ClearUploadingSpec(s.isUploading, id);
    ClearOther(s.isUploading, id, other);
  }

  /**
   * The remote update to IN_PROGRESS happens before the file check: with no
   * file chosen the handler still calls the server and selects its answer.
   */
  lemma FileChangeWithoutFile(s: State, token: string, credits: int, updated: Remote<Task>,
                              uploaded: Remote<Task>, transcribed: Remote<()>)
    requires s.selectedTask.Some? && credits > 0 && token != ""
    ensures var r := FileChangeStep(s, token, credits, None, updated, uploaded, transcribed);
      && r.calls == s.calls + [UpdateTask(s.selectedTask.value.id, SetStatus(InProgress))]
      && r.isUploading == s.isUploading && r.uploadError == s.uploadError
      && r.selectedTask == if updated.Ok? then Some(updated.value) else s.selectedTask
  {
  }

  /**
   * A failed upload changes the error and not the selection beyond the
   * remote IN_PROGRESS update: the buffer, the waiting edit, the dialogs and
   * the query events stay as they were; a successful one selects the
   * uploaded task.
   */
  lemma FileChangeOutcome(s: State, token: string, credits: int, file: Option<FileKind>,
                          updated: Remote<Task>, uploaded: Remote<Task>, transcribed: Remote<()>)
    requires s.selectedTask.Some? && credits > 0 && token != "" && updated.Ok? && file.Some?
    ensures var r := FileChangeStep(s, token, credits, file, updated, uploaded, transcribed);
      var ok := uploaded.Ok? && (file.value == PdfFile || transcribed.Ok?);
      && (ok ==> r.uploadError == None && r.selectedTask == Some(uploaded.value))
      && (!ok ==> r.uploadError == Some(UploadFailedText) && r.selectedTask == Some(updated.value))
      && (!ok ==> var before := Select(s, updated.value);
                  r.(uploadError := before.uploadError, calls := before.calls, isUploading := before.isUploading) == before)
  {
  }

  /**
   * Summarising: on success the saved task is shown IN_PROGRESS; on any
   * failure the task as it was before the action is shown FAILED.
   */
  lemma SummarizeOutcome(s: State, token: string, credits: int, language: string,
                         saved: Remote<Task>, summarized: Remote<()>)
    requires s.selectedTask.Some? && credits > 0 && token != ""
    ensures var r := SummarizeStep(s, token, credits, language, saved, summarized);
      && (saved.Ok? && summarized.Ok? ==> r.selectedTask == Some(saved.value.(status := InProgress)))
      && (saved.Err? || summarized.Err? ==> r.selectedTask == Some(s.selectedTask.value.(status := Failed)))
      && r.editedTranscription == s.editedTranscription
  {
  }

  /** Removing the file keeps every media field but the download URL. */
  lemma RemoveFileKeepsMedia(s: State, token: string)
    requires s.selectedTask.Some? && s.selectedTask.value.media.Some?
    ensures var r := RemoveFileStep(s, token);
      var m := s.selectedTask.value.media.value;
      && r.selectedTask.Some? && r.selectedTask.value.media == Some(m.(downloadUrl := None))
      && r.uploadError == None
  {
  }

  /**
   * A waiting edit outlives a change of the selection only when the task id
   * stays: then it still lands in the buffer when the debounce fires; for
   * another task it is cancelled and firing the debounce changes nothing.
   */
  lemma WaitingEditNeedsSameTask(s: State, content: string, t: Task)
    requires s.selectedTask.Some?
    ensures var a := s.selectedTask.value;
      var s1 := Select(s.(pendingEdit := Some(Edit(content, a.id))), t);
      && (t.id == a.id ==> FlushStep(s1).editedTranscription == content)
      && (t.id != a.id ==> s1.pendingEdit == None && FlushStep(s1) == s1)
  {
  }

  /**
   * Switching to another task and back before the debounce fires loses the
   * typed content: the buffer holds the task's own formatted content and
   * nothing is left to apply.
   */
  lemma SwitchingTasksDropsWaitingEdit(s: State, content: string, other: Task)
    requires s.selectedTask.Some? && other.id != s.selectedTask.value.id
    ensures var a := s.selectedTask.value;
      var s3 := TaskChangeStep(TaskChangeStep(s.(pendingEdit := Some(Edit(content, a.id))), other), a);
      && s3.pendingEdit == None
      && FlushStep(s3) == s3
      && s3.editedTranscription == FormatContent(a.content)
  {
  }

  /**
   * A run for an IN_PROGRESS task schedules the next run exactly when the
   * task it leaves selected is still IN_PROGRESS: without a completed fetch
   * the task stays as it was, and after one the fetched task's status decides.
   */
  lemma PollRepeatsWhileInProgress(s: State, token: string, reply: Remote<Status>, fetched: Remote<Task>)
    requires s.selectedTask.Some? && s.selectedTask.value.status == InProgress
    ensures var r := PollStep(s, token, reply, fetched);
      var settled := token != "" && s.selectedTask.value.id != "" && reply == Ok(Completed) && fetched.Ok?;
      && r.selectedTask.Some?
      && (settled ==> RefetchInterval(r.selectedTask.value.status) == RefetchInterval(fetched.value.status))
      && (!settled ==> RefetchInterval(r.selectedTask.value.status) == Some(5000))
  {
  }

  /**
   * The wait's call log: the task-list refresh, one status call per reply
   * the wait consumed, and on COMPLETED the fetch of the task, appended in
   * that order to what was logged before.
   */
  lemma AwaitStepCalls(s: State, id: string, polls: seq<Remote<Status>>, fetched: Remote<Task>)
    ensures var r := AwaitStep(s, id, polls, fetched);
      var k, n := |s.calls|, Wait(polls).1;
      var done := Wait(polls).0 == Settled(Completed);
      && |r.calls| == k + 1 + n + (if done then 1 else 0)
      && r.calls[..k] == s.calls && r.calls[k] == FetchTasks
      && (forall j :: k < j <= k + n ==> r.calls[j] == IsTaskTranscribing(id))
      && (done ==> r.calls[k + 1 + n] == FetchTaskById(id))
  {
    var k, n := |s.calls|, Wait(polls).1;
    var c3 := s.calls + [FetchTasks] + StatusCalls(id, n);
    assert c3[..k] == s.calls && c3[k] == FetchTasks;
    assert forall j :: k < j <= k + n ==> c3[j] == StatusCalls(id, n)[j - k - 1];
    if Wait(polls).0 == Settled(Completed) {
      var c4 := c3 + [FetchTaskById(id)];
      assert c4[..k] == c3[..k];
      assert forall j :: 0 <= j < |c3| ==> c4[j] == c3[j];
    }
  }

  /**
   * `isEditing` is raised only inside the debounced call, which lowers it
   * again before it returns: from a state where it is down, no handler
   * leaves it up, so the save handler's editing check never fires.
   */
  lemma EditingFlagStaysDown(s: State, token: string, credits: int, url: string, file: Option<FileKind>,
                             task: Remote<Task>, status: Remote<Status>, done: Remote<()>,
                             polls: seq<Remote<Status>>, youTubeId: Option<string>, taskIds: seq<string>,
                             t: Task, content: string, taskId: string, language: string)
    requires s.selectedTask.Some? && !s.isEditing
    ensures !PollStep(s, token, status, task).isEditing
    ensures !TranscribeStep(s, token, credits, status, done, polls, task).isEditing
    ensures !TaskChangeStep(s, t).isEditing
    ensures !WebsiteStep(s, token, credits, url, task).isEditing
    ensures !FileChangeStep(s, token, credits, file, task, task, done).isEditing
    ensures !RemoveFileStep(s, token).isEditing
    ensures !YouTubeStep(s, token, credits, youTubeId, done).isEditing
    ensures !EditStep(s, content, taskId).isEditing
    ensures !FlushStep(s.(pendingEdit := Some(Edit(content, taskId)))).isEditing
    ensures !SaveStep(s, token, task).isEditing
    ensures !SummarizeStep(s, token, credits, language, task, done).isEditing
    ensures !CombineStep(s, token, credits, taskIds, task).isEditing
    ensures !RecordingUploadStep(s, token, task, done).isEditing
  {
  }
}
