/**
 * The `AudioTranscribe` component as an object: its state hooks are fields,
 * and each handler is a method that updates them in the order the source
 * does, proved to take the step the `Handlers` module gives for it.
 *
 * Handlers run to completion one at a time. Timers are explicit events: the
 * recording interval fires through `Tick`, the edit debounce through
 * `FlushEdit`, and a run of the status query through `PollStatus`.
 */
module Component {
  import opened Wrappers
  import opened Tasks
  import opened UploadFlags
  import opened Formatting
  import opened Recording
  import opened Handlers

  /**
   * The wait loop of `handleTranscribe`, fed the successive replies of
   * `isTaskTranscribing`; `used` is how many it consumed.
   */
  method WaitForTerminal(polls: seq<Remote<Status>>) returns (outcome: WaitOutcome, used: nat)
    ensures (outcome, used) == Wait(polls)
  {
    used := 0;
    outcome := StillWaiting;
    while used < |polls|
      invariant used <= |polls|
      invariant forall j :: 0 <= j < used ==> polls[j] == Ok(InProgress)
      invariant Wait(polls) == (Wait(polls[used..]).0, Wait(polls[used..]).1 + used)
    {
      var reply := polls[used];
      assert polls[used..][1..] == polls[used + 1..];
      used := used + 1;
      match reply
      case Err(m) =>
        return Broken(m), used;
      case Ok(status) =>
        if status != InProgress {
          return Settled(status), used;
        }
    }
  }

  class AudioTranscribe {
    /** `effectiveToken`, with `""` for a missing token. */
    const token: string
    /** The credit balance from the user store. */
    const credits: int
    /** The recorder controls. */
    const rec: RecordingSession

    var selectedTask: Option<Task>
    var editedTranscription: string
    var isEditing: bool
    var pendingEdit: Option<Edit>
    var showUpgradeModal: bool
    var uploadError: Option<string>
    var isUploading: seq<UploadFlag>
    var youTubeModalOpen: bool
    var websiteModalOpen: bool
    var combineModalOpen: bool
    var calls: seq<Call>
    var queryEvents: seq<QueryEvent>

    /** The component state held in the fields. */
    function Snapshot(): State
      reads this
    {
      State(selectedTask, editedTranscription, isEditing, pendingEdit, showUpgradeModal,
            uploadError, isUploading, youTubeModalOpen, websiteModalOpen, combineModalOpen,
            calls, queryEvents)
    }

    predicate Valid()
      reads this, rec
    {
      rec.Valid()
    }

    /** The component mounted on a selected task, with nothing edited, uploading or open. */
    constructor (task: Task, token: string, credits: int)
      ensures Valid() && fresh(rec)
      ensures this.token == token && this.credits == credits
      ensures Snapshot() == State(Some(task), "", false, None, false, None, [], false, false, false, [], [])
      ensures !rec.isRecording && rec.recordingTime == 0
    {
      this.token := token;
      this.credits := credits;
      rec := new RecordingSession();
      selectedTask := Some(task);
      editedTranscription := "";
      isEditing := false;
      pendingEdit := None;
      showUpgradeModal := false;
      uploadError := None;
      isUploading := [];
      youTubeModalOpen := false;
      websiteModalOpen := false;
      combineModalOpen := false;
      calls := [];
      queryEvents := [];
    }

    /** One run of the status query and its `onSuccess`. */
    method PollStatus(statusReply: Remote<Status>, fetched: Remote<Task>)
      requires selectedTask.Some?
      modifies this
      ensures Snapshot() == PollStep(old(Snapshot()), token, statusReply, fetched)
    {
      var task := selectedTask.value;
      if token == "" || task.id == "" {
        return;
      }
      var status := Ok(task.status);
      if task.status == InProgress {
        calls := calls + [IsTaskTranscribing(task.id)];
        status := statusReply;
      }
      if status != Ok(Completed) {
        return;
      }
      calls := calls + [FetchTasks, FetchTaskById(task.id)];
      if fetched.Ok? {
        SetSelectedTask(fetched.value);
        editedTranscription := FormatContent(fetched.value.content);
      }
    }

    method HandleTaskChange(newTask: Task)
      modifies this
      ensures Snapshot() == TaskChangeStep(old(Snapshot()), newTask)
    {
      SetSelectedTask(newTask);
      if newTask.status != InProgress {
        queryEvents := queryEvents + [CancelTaskQuery(newTask.id)];
      } else {
        assert queryEvents + [] == queryEvents;
      }
      editedTranscription := FormatContent(newTask.content);
    }

    method HandleWebsite(url: string, scraped: Remote<Task>)
      requires selectedTask.Some?
      modifies this
      ensures Snapshot() == WebsiteStep(old(Snapshot()), token, credits, url, scraped)
    {
      if credits <= 0 {
        showUpgradeModal := true;
        return;
      }
      if token == "" {
        return;
      }
      websiteModalOpen := false;
      SetSelectedTask(selectedTask.value.(status := InProgress));
      calls := calls + [ScrapeWebsite(url)];
      match scraped
      case Ok(t) =>
        SetSelectedTask(t);
      case Err(m) =>
        uploadError := Some("Website scraping failed: " + ErrorText(m));
    }

    method HandleFileChange(file: Option<FileKind>, updated: Remote<Task>,
                            uploaded: Remote<Task>, transcribed: Remote<()>)
      requires selectedTask.Some?
      modifies this
      ensures Snapshot() == FileChangeStep(old(Snapshot()), token, credits, file, updated, uploaded, transcribed)
    {
      if credits <= 0 {
        showUpgradeModal := true;
        return;
      }
      if token == "" {
        return;
      }
      var id := selectedTask.value.id;
      calls := calls + [UpdateTask(id, SetStatus(InProgress))];
      if updated.Err? {
        return;
      }
      SetSelectedTask(updated.value);
      if file.None? {
        return;
      }
      ghost var s2 := Snapshot();
      Upload(id, file.value, uploaded, transcribed);
      assert Snapshot() == UploadStep(s2, id, file.value, uploaded, transcribed);
    }

    /** `setSelectedTask`: a change of task id cancels the edit waiting in the debounce. */
    method SetSelectedTask(t: Task)
      modifies this
      ensures Snapshot() == Select(old(Snapshot()), t)
    {
      if selectedTask.None? || selectedTask.value.id != t.id {
        pendingEdit := None;
      }
      selectedTask := Some(t);
    }

    /** The upload of `handleFileChange`, between raising and clearing the spinner. */
    method Upload(id: string, kind: FileKind, uploaded: Remote<Task>, transcribed: Remote<()>)
      modifies this
      ensures Snapshot() == UploadStep(old(Snapshot()), id, kind, uploaded, transcribed)
    {
      MarkFlag(id);
      Send(id, kind, uploaded, transcribed);
      ClearFlag(id);
    }

    /** `setIsUploading` with the find-or-append updater. */
    method MarkFlag(id: string)
      modifies this
      ensures Snapshot() == old(Snapshot()).(isUploading := MarkUploading(old(isUploading), id))
    {
      isUploading := MarkUploading(isUploading, id);
    }

    /** `setIsUploading` with the append updater of the recording upload. */
    method AppendFlag(id: string)
      modifies this
      ensures Snapshot() == old(Snapshot()).(isUploading := AppendUploading(old(isUploading), id))
    {
      isUploading := AppendUploading(isUploading, id);
    }

    /** `setIsUploading` with the filter updater of a `finally`. */
    method ClearFlag(id: string)
      modifies this
      ensures Snapshot() == old(Snapshot()).(isUploading := ClearUploading(old(isUploading), id))
    {
      isUploading := ClearUploading(isUploading, id);
    }

    /** The `try`/`catch` of the upload. */
    method Send(id: string, kind: FileKind, uploaded: Remote<Task>, transcribed: Remote<()>)
      modifies this
      ensures Snapshot() == SendStep(old(Snapshot()), id, kind, uploaded, transcribed)
    {
      uploadError := None;
      var ok: bool;
      if kind == PdfFile {
        calls := calls + [UploadAndSummarizePdf(id)];
        ok := uploaded.Ok?;
      } else {
        calls := calls + [UploadFile(id)];
        ok := false;
        if uploaded.Ok? {
          calls := calls + [TranscribeTask(id)];
          ok := transcribed.Ok?;
        }
      }
      if ok {
        SetSelectedTask(uploaded.value);
      } else {
        uploadError := Some(UploadFailedText);
      }
    }

    method HandleRemoveFile()
      requires selectedTask.Some?
      modifies this
      ensures Snapshot() == RemoveFileStep(old(Snapshot()), token)
    {
      var task := selectedTask.value;
      uploadError := None;
      if Truthy(task.downloadUrl) && token != "" {
        calls := calls + [UpdateTask(task.id, ClearDownload(task.name, task.content))];
      } else {
        assert calls + [] == calls;
      }
      SetSelectedTask(WithoutMediaUrl(task));
    }

    method HandleTranscribe(first: Remote<Status>, started: Remote<()>,
                            polls: seq<Remote<Status>>, fetched: Remote<Task>)
      requires selectedTask.Some?
      modifies this
      ensures Snapshot() == TranscribeStep(old(Snapshot()), token, credits, first, started, polls, fetched)
    {
      if credits <= 0 {
        showUpgradeModal := true;
        return;
      }
      if token == "" {
        return;
      }
      var before := selectedTask.value;
      var id := before.id;
      calls := calls + [IsTaskTranscribing(id)];
      if first.Err? {
        return;
      }
      SetSelectedTask(before.(status := InProgress));
      calls := calls + [TranscribeTask(id)];
      if started.Err? {
        return;
      }
      ghost var s2 := Snapshot();
      AwaitCompletion(id, polls, fetched);
      assert Snapshot() == AwaitStep(s2, id, polls, fetched);
    }

    /** The wait of `handleTranscribe`, and the reconciliation once the task completes. */
    method AwaitCompletion(id: string, polls: seq<Remote<Status>>, fetched: Remote<Task>)
      modifies this
      ensures Snapshot() == AwaitStep(old(Snapshot()), id, polls, fetched)
    {
      calls := calls + [FetchTasks];
      var outcome, used := WaitForTerminal(polls);
      calls := calls + StatusCalls(id, used);
      if outcome == Settled(Completed) {
        calls := calls + [FetchTaskById(id)];
        if fetched.Ok? {
          SetSelectedTask(fetched.value);
          editedTranscription := FormatContent(fetched.value.content);
        }
      }
    }

    method HandleYouTubeTranscribe(youTubeId: Option<string>, reply: Remote<()>)
      requires selectedTask.Some?
      modifies this
      ensures Snapshot() == YouTubeStep(old(Snapshot()), token, credits, youTubeId, reply)
    {
      if credits <= 0 {
        youTubeModalOpen := false;
        showUpgradeModal := true;
        return;
      }
      if token == "" {
        return;
      }
      youTubeModalOpen := false;
      if !Truthy(youTubeId) {
        uploadError := Some("YouTube transcription failed: " + InvalidYouTubeText);
        return;
      }
      var before := selectedTask.value;
      SetSelectedTask(before.(status := InProgress));
      calls := calls + [TranscribeYouTube(before.id, youTubeId.value)];
      if reply.Err? {
        uploadError := Some("YouTube transcription failed: " + ErrorText(reply.message));
      }
    }

    method HandleEditTranscription(content: string, taskId: string)
      requires selectedTask.Some?
      modifies this
      ensures Snapshot() == EditStep(old(Snapshot()), content, taskId)
    {
      if taskId == selectedTask.value.id {
        editedTranscription := content;
      }
    }

    /** A call of the debounced edit handler: it replaces whatever edit is still waiting. */
    method ScheduleEdit(content: string, taskId: string)
      modifies this
      ensures Snapshot() == old(Snapshot()).(pendingEdit := Some(Edit(content, taskId)))
    {
      pendingEdit := Some(Edit(content, taskId));
    }

    /** The debounce interval elapses. */
    method FlushEdit()
      requires selectedTask.Some?
      modifies this
      ensures Snapshot() == FlushStep(old(Snapshot()))
      ensures !isEditing || old(isEditing && pendingEdit.None?)
    {
      match pendingEdit
      case None =>
      case Some(e) =>
        pendingEdit := None;
        isEditing := true;
        HandleEditTranscription(e.content, e.taskId);
        isEditing := false;
    }

    method HandleSaveTranscription(saved: Remote<Task>)
      requires selectedTask.Some?
      modifies this
      ensures Snapshot() == SaveStep(old(Snapshot()), token, saved)
    {
      if token == "" || isEditing {
        return;
      }
      calls := calls + [UpdateTask(selectedTask.value.id, SetContent(editedTranscription))];
      if saved.Ok? {
        SetSelectedTask(saved.value);
      }
    }

    method HandleSummarizeAI(language: string, saved: Remote<Task>, summarized: Remote<()>)
      requires selectedTask.Some?
      modifies this
      ensures Snapshot() == SummarizeStep(old(Snapshot()), token, credits, language, saved, summarized)
    {
      if credits <= 0 {
        showUpgradeModal := true;
        return;
      }
      if token == "" {
        return;
      }
      var before := selectedTask.value;
      calls := calls + [UpdateTask(before.id, SetContent(editedTranscription))];
      if saved.Err? {
        SetSelectedTask(before.(status := Failed));
        return;
      }
      SetSelectedTask(saved.value.(status := InProgress));
      calls := calls + [SummarizeTask(before.id, language)];
      if summarized.Err? {
        SetSelectedTask(before.(status := Failed));
      }
    }

    /** `handleCombineTasks`: open the combine dialog. */
    method HandleCombineTasks()
      modifies this
      ensures Snapshot() == old(Snapshot()).(combineModalOpen := true)
    {
      combineModalOpen := true;
    }

    method OnCombineTasks(taskIds: seq<string>, combined: Remote<Task>)
      modifies this
      ensures Snapshot() == CombineStep(old(Snapshot()), token, credits, taskIds, combined)
    {
      if credits <= 0 {
        showUpgradeModal := true;
        return;
      }
      if token == "" || |taskIds| < 2 {
        return;
      }
      calls := calls + [CombineTasks(taskIds)];
      if combined.Ok? {
        SetSelectedTask(combined.value);
        queryEvents := queryEvents + [InvalidateTaskList];
        combineModalOpen := false;
      }
    }

    /**
     * `stopRecording` with the recorder's answer: when the recording stops,
     * the upload step follows; otherwise nothing changes.
     */
    method StopRecording(recorderStopped: bool, uploaded: Remote<Task>, transcribed: Remote<()>)
      requires Valid() && selectedTask.Some?
      modifies this, rec
      ensures Valid()
      ensures var stopped := old(rec.isRecording) && recorderStopped;
        Snapshot() == if stopped then RecordingUploadStep(old(Snapshot()), token, uploaded, transcribed) else old(Snapshot())
      ensures old(rec.isRecording) && recorderStopped ==>
        && !rec.isRecording && !rec.isPaused && rec.liveTimers == {}
        && rec.recordingTime == old(rec.recordingTime)
      ensures !(old(rec.isRecording) && recorderStopped) ==> unchanged(rec)
    {
      var stopped := rec.Stop(recorderStopped);
      if stopped {
        ghost var s0 := Snapshot();
        UploadRecording(uploaded, transcribed);
        assert Snapshot() == RecordingUploadStep(s0, token, uploaded, transcribed);
      }
    }

    /** The recorded audio sent off: upload, transcription, and the spinner raised meanwhile. */
    method UploadRecording(uploaded: Remote<Task>, transcribed: Remote<()>)
      requires selectedTask.Some?
      modifies this
      ensures Snapshot() == RecordingUploadStep(old(Snapshot()), token, uploaded, transcribed)
    {
      if token == "" {
        return;
      }
      var id := selectedTask.value.id;
      AppendFlag(id);
      SendRecording(id, uploaded, transcribed);
      ClearFlag(id);
    }

    /** The `try` of the recording upload. */
    method SendRecording(id: string, uploaded: Remote<Task>, transcribed: Remote<()>)
      modifies this
      ensures Snapshot() == RecordingSendStep(old(Snapshot()), id, uploaded, transcribed)
    {
      calls := calls + [UploadFile(id)];
      if uploaded.Err? {
        return;
      }
      calls := calls + [TranscribeTask(id)];
      if transcribed.Ok? {
        SetSelectedTask(uploaded.value);
        calls := calls + [FetchTasks];
      }
    }

    /** `handleRecordClick`: behind the credits gate, stop when recording and start otherwise. */
    method HandleRecordClick(recorderReady: bool, uploaded: Remote<Task>, transcribed: Remote<()>)
      requires Valid() && selectedTask.Some?
      modifies this, rec
      ensures Valid()
      ensures credits <= 0 ==> Snapshot() == OutOfCredits(old(Snapshot())) && unchanged(rec)
      ensures credits > 0 && !old(rec.isRecording) ==>
        && Snapshot() == old(Snapshot())
        && (recorderReady ==> rec.isRecording && !rec.isPaused && rec.recordingTime == 0 && |rec.liveTimers| == 1)
        && (!recorderReady ==> unchanged(rec))
      ensures credits > 0 && old(rec.isRecording) ==>
        && Snapshot() == (if recorderReady then RecordingUploadStep(old(Snapshot()), token, uploaded, transcribed)
                          else old(Snapshot()))
        && (recorderReady ==> !rec.isRecording && !rec.isPaused && rec.liveTimers == {})
        && (recorderReady ==> rec.recordingTime == old(rec.recordingTime))
        && (!recorderReady ==> unchanged(rec))
    {
      if credits <= 0 {
        showUpgradeModal := true;
        return;
      }
      if rec.isRecording {
        StopRecording(recorderReady, uploaded, transcribed);
      } else {
        rec.Start(recorderReady);
      }
    }

    /** `handlePauseRecording`. */
    method HandlePauseRecording()
      requires Valid()
      modifies rec
      ensures Valid()
      ensures !old(rec.isRecording) ==> unchanged(rec)
      ensures old(rec.isRecording) ==>
        rec.isRecording && rec.isPaused == !old(rec.isPaused) && rec.recordingTime == old(rec.recordingTime)
      ensures |rec.liveTimers| == if rec.isRecording && !rec.isPaused then 1 else 0
    {
      rec.TogglePause();
    }

    /** A recording interval fires. */
    method Tick(h: nat)
      requires Valid()
      modifies rec
      ensures Valid()
      ensures rec.recordingTime == old(rec.recordingTime) + (if h in old(rec.liveTimers) then 1 else 0)
      ensures rec.isRecording == old(rec.isRecording) && rec.isPaused == old(rec.isPaused)
      ensures rec.liveTimers == old(rec.liveTimers)
    {
      rec.Tick(h);
    }

    /** The unmount cleanups: the waiting edit is cancelled and the selection cleared. */
    method Teardown()
      modifies this
      ensures Snapshot() == old(Snapshot()).(pendingEdit := None, selectedTask := None)
    {
      pendingEdit := None;
      selectedTask := None;
    }
  }
}
