/**
 * The task record the component works on, the transcription status, and the
 * shape of what the remote `api` module returns. Remote calls are not
 * modelled as behaviour: each call's outcome is an input of type `Remote`.
 */
module Tasks {
  import opened Wrappers

  datatype Status = NotStarted | InProgress | Completed | Failed

  datatype Media = Media(downloadUrl: Option<string>, name: Option<string>, youtubeId: Option<string>)

  datatype Task = Task(
    id: string,
    name: string,
    content: string,
    transcriptionResult: Option<string>,
    status: Status,
    downloadUrl: Option<string>,
    media: Option<Media>)

  /**
   * The outcome of one awaited remote call: its value, or the thrown error,
   * whose message is `None` when the thrown value is not an `Error`.
   */
  datatype Remote<T> = Ok(value: T) | Err(message: Option<string>)

  /** The text shown for a thrown value: its message when it is an `Error`, a fixed fallback otherwise. */
  function ErrorText(message: Option<string>): string
  {
    match message
    case Some(m) => m
    case None => "Unknown error"
  }

  /** JavaScript truthiness of an optional string: present and non-empty. */
  predicate Truthy(s: Option<string>)
  {
    s.Some? && s.value != ""
  }

  /**
   * The task with its media's download URL dropped: a copy of the task whose
   * media, when present, loses only its URL, and which has no media otherwise.
   */
  function WithoutMediaUrl(task: Task): (r: Task)
    ensures r.media.Some? <==> task.media.Some?
    ensures r.media.Some? ==> r.media.value.downloadUrl.None?
    ensures r.media.Some? ==> r.media.value.name == task.media.value.name
    ensures r.media.Some? ==> r.media.value.youtubeId == task.media.value.youtubeId
    ensures r.(media := task.media) == task
  {
    match task.media
    case Some(m) => task.(media := Some(m.(downloadUrl := None)))
    case None => task
  }

  /** The fields sent with an `updateTask` call. */
  datatype Patch =
    | SetStatus(status: Status)
    | SetContent(content: string)
    | ClearDownload(name: string, content: string)

  /** One call made to the remote `api` module, with the arguments that matter. */
  datatype Call =
    | UpdateTask(taskId: string, patch: Patch)
    | FetchTaskById(taskId: string)
    | FetchTasks
    | UploadFile(taskId: string)
    | UploadAndSummarizePdf(taskId: string)
    | TranscribeTask(taskId: string)
    | IsTaskTranscribing(taskId: string)
    | TranscribeYouTube(taskId: string, videoId: string)
    | ScrapeWebsite(url: string)
    | SummarizeTask(taskId: string, language: string)
    | CombineTasks(taskIds: seq<string>)

  /** The React Query operations the handlers trigger. */
  datatype QueryEvent = CancelTaskQuery(taskId: string) | InvalidateTaskList
}
