/** The data of the workflow kernel: definitions, run snapshots and the three status levels
    with their transition tables. */
module Domain {

  datatype Option<+T> = None | Some(value: T)

  type TaskKey = string
  type RunID = string
  type WorkerID = string
  type DispatchID = string
  /** Nanoseconds on the clock the caller passes in. */
  type Time = int

  const NANOS_PER_MILLI: int := 1_000_000

  // ---------- definitions ----------

  type ExecutorKind = string
  const EXECUTOR_MOCK: ExecutorKind := "mock"
  const EXECUTOR_CONTAINER: ExecutorKind := "container"

  /** The JSON object handed to the executor; the kernel never looks inside. */
  datatype Input = Input(canonicalBytes: seq<int>)

  datatype RetryPolicy = RetryPolicy(maxAttempts: int, intervalMillis: int)

  datatype TaskDefinition = TaskDefinition(
    key: TaskKey, executor: ExecutorKind, action: string, input: Input,
    dependsOn: seq<TaskKey>, retry: RetryPolicy, timeoutMillis: int)

  datatype WorkflowDefinition = WorkflowDefinition(id: string, concurrency: int, tasks: seq<TaskDefinition>)

  /** A compiled definition: adjacency in both directions over task positions. */
  datatype Compiled = Compiled(
    definition: WorkflowDefinition,
    index: map<TaskKey, nat>,
    dependencies: seq<seq<nat>>,
    successors: seq<seq<nat>>)
  {
    function Size(): nat { |definition.tasks| }
    function MaxAttempts(i: nat): int requires i < Size() { definition.tasks[i].retry.maxAttempts }
  }

  // ---------- statuses ----------

  datatype WorkflowStatus =
    | WorkflowPending | WorkflowRunning | WorkflowSucceeded | WorkflowFailed | WorkflowCanceled

  datatype TaskStatus =
    | TaskWaitingDependencies | TaskReady | TaskQueued | TaskRunning | TaskWaitingRetry
    | TaskSucceeded | TaskFailed | TaskCanceled | TaskSkipped

  datatype AttemptStatus =
    | AttemptRunning | AttemptSucceeded | AttemptFailed | AttemptTimedOut | AttemptCanceled | AttemptInterrupted

  predicate WorkflowEdge(from: WorkflowStatus, to: WorkflowStatus) {
    match from
    case WorkflowPending => to.WorkflowRunning? || to.WorkflowCanceled?
    case WorkflowRunning => to.WorkflowSucceeded? || to.WorkflowFailed? || to.WorkflowCanceled?
    case _ => false
  }

  predicate TaskEdge(from: TaskStatus, to: TaskStatus) {
    match from
    case TaskWaitingDependencies => to.TaskReady? || to.TaskCanceled? || to.TaskSkipped?
    case TaskReady => to.TaskQueued? || to.TaskRunning? || to.TaskCanceled? || to.TaskSkipped?
    case TaskQueued => to.TaskRunning? || to.TaskReady? || to.TaskCanceled?
    case TaskRunning => to.TaskSucceeded? || to.TaskWaitingRetry? || to.TaskFailed? || to.TaskCanceled?
    case TaskWaitingRetry => to.TaskReady? || to.TaskFailed? || to.TaskCanceled?
    case _ => false
  }

  predicate AttemptEdge(from: AttemptStatus, to: AttemptStatus) {
    from.AttemptRunning? && !to.AttemptRunning?
  }

  predicate WorkflowTerminal(s: WorkflowStatus) {
    s.WorkflowSucceeded? || s.WorkflowFailed? || s.WorkflowCanceled?
  }

  predicate Terminal(s: TaskStatus) {
    s.TaskSucceeded? || s.TaskFailed? || s.TaskCanceled? || s.TaskSkipped?
  }

  predicate Retryable(s: AttemptStatus) {
    s.AttemptFailed? || s.AttemptTimedOut? || s.AttemptInterrupted?
  }

  // ---------- executor protocol ----------

  /** The result kinds; `ResultOther` is any string outside the protocol. */
  datatype ResultKind =
    | ResultSuccess | ResultTemporaryFailure | ResultPermanentFailure | ResultCanceled | ResultOther(text: string)

  datatype ExecutionResponse = ExecutionResponse(
    kind: ResultKind, output: string, errorCode: string, errorMessage: string)

  datatype ExecutionResult = ExecutionResult(output: string, errorCode: string, errorMessage: string)

  const NO_RESULT := ExecutionResult("", "", "")

  datatype ExecutionRequest = ExecutionRequest(
    definitionID: string, runID: RunID, taskKey: TaskKey, action: string, input: Input, attempt: nat)

  // ---------- run snapshots ----------

  datatype Attempt = Attempt(
    number: int, status: AttemptStatus, workerID: WorkerID, dispatchID: DispatchID,
    startedAt: Time, finishedAt: Option<Time>, result: ExecutionResult)

  datatype TaskRun = TaskRun(
    key: TaskKey, status: TaskStatus, attempts: seq<Attempt>, readyAt: Option<Time>, finishedAt: Option<Time>)
  {
    function Last(): Attempt requires |attempts| > 0 { attempts[|attempts| - 1] }
  }

  /** What an audit event records: the entity with its key, and both ends of the transition. */
  datatype Move =
    | WorkflowMove(run: RunID, wfFrom: WorkflowStatus, wfTo: WorkflowStatus)
    | TaskMove(task: TaskKey, from: TaskStatus, to: TaskStatus)
    | AttemptMove(key: TaskKey, number: int, atFrom: AttemptStatus, atTo: AttemptStatus)

  datatype StateEvent = StateEvent(sequence: nat, at: Time, move: Move, reason: string)

  /** The run row: a WorkflowRun without its task rows and dependency counts. */
  datatype RunRow = RunRow(
    id: RunID, definitionID: string, definitionVersion: int, status: WorkflowStatus,
    revision: nat, lastEventSequence: nat, cancelRequestedAt: Option<Time>,
    createdAt: Time, startedAt: Option<Time>, finishedAt: Option<Time>)

  datatype RunSnapshot = RunSnapshot(
    version: int, definition: WorkflowDefinition, row: RunRow,
    tasks: seq<TaskRun>, remaining: seq<int>, events: seq<StateEvent>)

  /** The last event number, also for snapshots written before the run row carried it. */
  function LastEventSequence(s: RunSnapshot): nat {
    if |s.events| > 0 && s.events[|s.events| - 1].sequence > s.row.lastEventSequence
    then s.events[|s.events| - 1].sequence
    else s.row.lastEventSequence
  }

  /** The snapshot has one task and one counter per compiled task. */
  predicate Fits(s: RunSnapshot, c: Compiled) {
    |s.tasks| == c.Size() && |s.remaining| == c.Size()
  }
}
