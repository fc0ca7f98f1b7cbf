/** Tasks routed to agents and the results agents return for them. */
module Tasks {
  import opened Common
  import opened Json
  import opened Agents

  datatype Priority = Critical | High | Medium | Low

  /** Lifecycle of a task: PENDING -> ROUTED -> EXECUTING -> a final status. */
  datatype TaskStatus = Pending | Routed | Executing | Completed | Failed | Cancelled | TimedOut

  /** The statuses a TaskResult may carry. CANCELLED is not among them. */
  const TERMINAL_STATUSES: set<TaskStatus> := {Completed, Failed, TimedOut}

  /** A unit of work for an agent; timeouts are seconds, timestamps are opaque ticks. */
  datatype Task = Task(
    taskId: string,
    title: string,
    description: string,
    domain: Option<Domain>,
    targetAgent: Option<string>,
    priority: Priority,
    status: TaskStatus,
    parameters: Object,
    createdAt: int,
    timeoutSeconds: real,
    retryCount: int,
    maxRetries: int,
    metadata: Object)

  const DEFAULT_TASK_TIMEOUT: real := 300.0
  const DEFAULT_TASK_MAX_RETRIES: int := 3

  /**
   * Constructing a `Task`. The field validators (task_id not blank, timeout
   * positive) report together; the retry bound is checked only once they pass.
   * Every field is stored as given: task_id is not stripped.
   */
  function NewTask(taskId: string, title: string, description: string, domain: Option<Domain>,
                   targetAgent: Option<string>, priority: Priority, status: TaskStatus,
                   parameters: Object, createdAt: int, timeoutSeconds: real,
                   retryCount: int, maxRetries: int, metadata: Object)
    : (r: Result<Task, seq<string>>)
    ensures r.Ok? <==> !IsBlank(taskId) && timeoutSeconds > 0.0 && retryCount <= maxRetries
    ensures r.Ok? ==> (r.value.taskId == taskId && r.value.timeoutSeconds == timeoutSeconds
      && r.value.retryCount == retryCount && r.value.maxRetries == maxRetries
      && r.value.priority == priority && r.value.status == status
      && r.value.domain == domain && r.value.targetAgent == targetAgent)
    ensures r.Ok? ==> r.value == Task(taskId, title, description, domain, targetAgent, priority, status,
                                      parameters, createdAt, timeoutSeconds, retryCount, maxRetries, metadata)
    ensures r.Err? ==> 1 <= |r.error| <= 2
  {
    var fieldErrors :=
      (if IsBlank(taskId) then ["task_id must not be empty"] else []) +
      (if timeoutSeconds <= 0.0 then ["timeout_seconds must be positive"] else []);
    if fieldErrors != [] then Err(fieldErrors)
    else if retryCount > maxRetries then Err(["retry_count must not exceed max_retries"])
    else Ok(Task(taskId, title, description, domain, targetAgent, priority, status,
                 parameters, createdAt, timeoutSeconds, retryCount, maxRetries, metadata))
  }

  /** `Task(task_id=..., title=..., description=..., created_at=...)` with every other field defaulted. */
  function DefaultTask(taskId: string, title: string, description: string, createdAt: int): Result<Task, seq<string>> {
    NewTask(taskId, title, description, None, None, Medium, Pending, map[], createdAt,
            DEFAULT_TASK_TIMEOUT, 0, DEFAULT_TASK_MAX_RETRIES, map[])
  }

  /** Defaults: MEDIUM priority, PENDING, 300 s timeout, 0 retries of at most 3; only a blank id is rejected. */
  lemma DefaultTaskFields(taskId: string, title: string, description: string, createdAt: int)
    ensures DefaultTask(taskId, title, description, createdAt).Ok? <==> !IsBlank(taskId)
    ensures var r := DefaultTask(taskId, title, description, createdAt);
      r.Ok? ==> (r.value.priority == Medium && r.value.status == Pending
        && r.value.timeoutSeconds == 300.0 && r.value.retryCount == 0 && r.value.maxRetries == 3
        && r.value.domain.None? && r.value.targetAgent.None? && r.value.parameters == map[])
  {
  }

  /** Equal retry_count and max_retries is accepted; one more is rejected. */
  lemma RetryBoundInclusive(t: Task)
    requires !IsBlank(t.taskId) && t.timeoutSeconds > 0.0
    ensures NewTask(t.taskId, t.title, t.description, t.domain, t.targetAgent, t.priority, t.status,
                    t.parameters, t.createdAt, t.timeoutSeconds, t.maxRetries, t.maxRetries, t.metadata).Ok?
    ensures NewTask(t.taskId, t.title, t.description, t.domain, t.targetAgent, t.priority, t.status,
                    t.parameters, t.createdAt, t.timeoutSeconds, t.maxRetries + 1, t.maxRetries, t.metadata)
            == Err(["retry_count must not exceed max_retries"])
  {
  }

  /** What an agent reports after handling a task. */
  datatype TaskResult = TaskResult(
    taskId: string,
    agentId: string,
    status: TaskStatus,
    resultData: Object,
    errorMessage: Option<string>,
    startedAt: int,
    completedAt: int,
    durationSeconds: real)

  /** Constructing a `TaskResult`: the status must be terminal and the duration not negative. */
  function NewTaskResult(taskId: string, agentId: string, status: TaskStatus, resultData: Object,
                         errorMessage: Option<string>, startedAt: int, completedAt: int, durationSeconds: real)
    : (r: Result<TaskResult, seq<string>>)
    ensures r.Ok? <==> status in TERMINAL_STATUSES && durationSeconds >= 0.0
    ensures r.Ok? ==> r.value == TaskResult(taskId, agentId, status, resultData, errorMessage,
                                            startedAt, completedAt, durationSeconds)
  {
    var errors :=
      (if status !in TERMINAL_STATUSES then ["TaskResult status must be a terminal state"] else []) +
      (if durationSeconds < 0.0 then ["duration_seconds must be >= 0"] else []);
    if errors == [] then
      Ok(TaskResult(taskId, agentId, status, resultData, errorMessage, startedAt, completedAt, durationSeconds))
    else Err(errors)
  }

  /** PENDING, ROUTED, EXECUTING and CANCELLED results are rejected; COMPLETED, FAILED and TIMED_OUT pass. */
  lemma ResultStatusRule(status: TaskStatus)
    ensures NewTaskResult("t", "a", status, map[], None, 0, 0, 0.0).Ok? <==>
      (status == Completed || status == Failed || status == TimedOut)
  {
  }
}
