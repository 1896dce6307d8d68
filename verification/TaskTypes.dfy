// Records and constants of the ingestion task store (models.py, tasks.py).
module TaskTypes {

  datatype Option<+T> = None | Some(value: T)

  datatype Provider = HuggingFace | ModelScopeCn | ModelScopeAi | GithubRelease | Kaggle | Http | Filesystem

  datatype Status =
    | Scheduled | Queued | Resolving | Downloading | Verifying | AwaitingConfirmation
    | Publishing | Paused | Cancelled | Completed | Failed

  // uuid4 strings and asyncio.Task objects are only compared for equality.
  type TaskId = nat
  type Handle = nat

  // The four components artifact_identity encodes.
  datatype ArtifactId = ArtifactId(provider: Provider, source: string, revision: string, selection: Option<seq<string>>)

  // What a caller asks to ingest, apart from provider and resolved revision.
  datatype Request = Request(
    source: string, selection: Option<seq<string>>,
    disableMirror: bool, mirrorUrl: Option<string>, disableProxy: bool)

  datatype Task = Task(
    provider: Provider, request: Request, resolved: Option<string>, status: Status,
    queuePosition: Option<nat>, createdAt: int, resumeFromStage: bool, artifact: Option<ArtifactId>)

  // Which statuses `_transition`, `delete_task` and `_raise_if_stopped` accept.
  predicate Terminal(st: Status) { st.Completed? || st.Failed? || st.Cancelled? }
  predicate Pausable(st: Status) { st.Queued? || st.Resolving? || st.Downloading? || st.Verifying? }
  predicate Cancellable(st: Status) { Pausable(st) || st.Scheduled? || st.Paused? || st.AwaitingConfirmation? }
  predicate Stopped(st: Status) { st.Paused? || st.Cancelled? }
  predicate Waiting(st: Status) { st.Queued? || st.Paused? }
  predicate Interrupted(st: Status) { st.Resolving? || st.Downloading? || st.Verifying? || st.Publishing? }

  predicate IsModelScope(p: Provider) {
    p.ModelScopeCn? || p.ModelScopeAi?
  }

  // `_queue_order`: a missing position sorts after every real one.
  const NO_POSITION: int := 0x8000_0000_0000_0000 - 1

  function Position(t: Task): int {
    if t.queuePosition.Some? then t.queuePosition.value else NO_POSITION
  }

  predicate Before(a: Task, b: Task) {
    Position(a) < Position(b) || (Position(a) == Position(b) && a.createdAt < b.createdAt)
  }
}
