/**
 * The task executor: dispatches a routed task to its agent, retries failed
 * attempts, records one history entry per attempt and keeps the history
 * bounded.
 *
 * What happens on each attempt comes from outside: the pluggable dispatch
 * handlers are a map from agent id to the handler's behaviour on its n-th
 * call, and the clock is a function from attempt number to the timing of
 * that attempt.
 */
module Executor {
  import opened Common
  import opened Json
  import opened Agents
  import opened Tasks

  /** What a registered handler does when called. */
  datatype HandlerRun =
    | Returns(data: Object)      // returns a result dict
    | Throws(message: string)    // raises; `str(exc)` is the message
    | ThrowsTimeout              // raises TimeoutError itself

  /** A handler's behaviour on its n-th call (n is the attempt number). */
  type Handler = nat -> HandlerRun

  /** The clock readings of one attempt. `elapsed` is the monotonic time the dispatch took. */
  datatype Timing = Timing(startedAt: int, completedAt: int, elapsed: real)

  /** The outcome `_dispatch_with_timeout` reports for one attempt. */
  datatype Outcome = Answered(data: Object) | Expired | Errored(message: string)

  /** The acknowledgement the default dispatch returns when no handler is registered for the agent. */
  function Acknowledgement(task: Task, agentId: string, timestamp: int): Object {
    map["dispatched_to" := Str(agentId), "task_id" := Str(task.taskId), "task_title" := Str(task.title),
        "domain" := (if task.domain.Some? then Str(DomainValue(task.domain.value)) else Null),
        "acknowledged" := Bool(true), "dispatch_timestamp" := Int(timestamp)]
  }

  /**
   * `_dispatch_with_timeout`: with a handler, its result counts only when it
   * came back within the timeout (a late result is a timeout); without one,
   * the task is acknowledged.
   */
  function Dispatch(task: Task, agentId: string, handlers: map<string, Handler>, attempt: nat,
                    timing: Timing, timeout: real): (r: Outcome)
    ensures agentId !in handlers ==> r == Answered(Acknowledgement(task, agentId, timing.startedAt))
    ensures agentId in handlers && handlers[agentId](attempt).Returns? ==>
      r == (if timing.elapsed > timeout then Expired else Answered(handlers[agentId](attempt).data))
    ensures agentId in handlers && handlers[agentId](attempt).Throws? ==>
      r == Errored(handlers[agentId](attempt).message)
    ensures agentId in handlers && handlers[agentId](attempt).ThrowsTimeout? ==> r == Expired
  {
    if agentId !in handlers then Answered(Acknowledgement(task, agentId, timing.startedAt))
    else match handlers[agentId](attempt)
      case Returns(data) => if timing.elapsed > timeout then Expired else Answered(data)
      case Throws(message) => Errored(message)
      case ThrowsTimeout => Expired
  }

  /** One attempt, as history keeps it. */
  datatype ExecutionRecord = ExecutionRecord(
    taskId: string,
    agentId: string,
    attempt: nat,
    status: TaskStatus,
    startedAt: int,
    completedAt: int,
    durationSeconds: real,
    routingMethod: string,
    errorMessage: Option<string>,
    resultData: Object)

  /** The errors `execute` raises; the codes are ORCH_7002 and ORCH_7004. */
  datatype ExecError =
    | TaskTimeout(taskId: string, timeoutSeconds: real)
    | RetryExhausted(taskId: string, attempts: int, lastError: string)

  /** `task.timeout_seconds or default`: a zero timeout falls back to the configured default. */
  function EffectiveTimeout(task: Task, defaultTimeout: real): real {
    if task.timeoutSeconds != 0.0 then task.timeoutSeconds else defaultTimeout
  }

  /** The error message of a timed-out attempt; the timeout value Python formats into it is left out. */
  const TIMEOUT_MESSAGE: string := "Timed out after the timeout"

  /** The record of attempt `attempt` with the given outcome. */
  function RecordOf(task: Task, agentId: string, routingMethod: string, attempt: nat, timing: Timing,
                    timeout: real, outcome: Outcome): (r: ExecutionRecord)
    ensures r.status in TERMINAL_STATUSES && r.attempt == attempt && r.taskId == task.taskId
    ensures (r.status == Completed) == outcome.Answered?
    ensures (r.status == Tasks.TimedOut) == outcome.Expired?
  {
    match outcome
    case Answered(data) =>
      ExecutionRecord(task.taskId, agentId, attempt, Completed, timing.startedAt, timing.completedAt,
                      timing.elapsed, routingMethod, None, data)
    case Expired =>
      ExecutionRecord(task.taskId, agentId, attempt, Tasks.TimedOut, timing.startedAt, timing.completedAt,
                      timing.elapsed, routingMethod, Some(TIMEOUT_MESSAGE), map[])
    case Errored(message) =>
      ExecutionRecord(task.taskId, agentId, attempt, Tasks.Failed, timing.startedAt, timing.completedAt,
                      timing.elapsed, routingMethod, Some(message), map[])
  }

  /** The everything an `execute` call needs to know about its environment. */
  datatype Setting = Setting(
    task: Task,
    agentId: string,
    routingMethod: string,
    handlers: map<string, Handler>,
    clock: nat -> Timing,
    timeout: real,
    maxAttempts: int)

  function OutcomeAt(s: Setting, attempt: nat): Outcome {
    Dispatch(s.task, s.agentId, s.handlers, attempt, s.clock(attempt), s.timeout)
  }

  function RecordAt(s: Setting, attempt: nat): ExecutionRecord {
    RecordOf(s.task, s.agentId, s.routingMethod, attempt, s.clock(attempt), s.timeout, OutcomeAt(s, attempt))
  }

  /** The result of a successful attempt. */
  function ResultAt(s: Setting, attempt: nat): TaskResult
    requires OutcomeAt(s, attempt).Answered?
  {
    var t := s.clock(attempt);
    TaskResult(s.task.taskId, s.agentId, Completed, OutcomeAt(s, attempt).data, None,
               t.startedAt, t.completedAt, t.elapsed)
  }

  /**
   * Attempts `attempt`, `attempt + 1`, ... up to the last: the records they
   * leave and what `execute` returns. A success ends the run; a failure on
   * the last attempt raises, a timeout as TaskTimeoutError and anything else
   * as TaskRetryExhaustedError.
   */
  function AttemptsFrom(s: Setting, attempt: nat): (seq<ExecutionRecord>, Result<TaskResult, ExecError>)
    requires 1 <= attempt <= s.maxAttempts
    decreases s.maxAttempts - attempt
  {
    var rec := RecordAt(s, attempt);
    match OutcomeAt(s, attempt)
    case Answered(_) => ([rec], Ok(ResultAt(s, attempt)))
    case Expired =>
      if attempt == s.maxAttempts then ([rec], Err(TaskTimeout(s.task.taskId, s.timeout)))
      else var rest := AttemptsFrom(s, attempt + 1); ([rec] + rest.0, rest.1)
    case Errored(message) =>
      if attempt == s.maxAttempts then ([rec], Err(RetryExhausted(s.task.taskId, s.maxAttempts, message)))
      else var rest := AttemptsFrom(s, attempt + 1); ([rec] + rest.0, rest.1)
  }

  /** One unfolding of AttemptsFrom, in the shape the executor's loop consumes it. */
  lemma AttemptsFromStep(s: Setting, attempt: nat)
    requires 1 <= attempt <= s.maxAttempts
    ensures OutcomeAt(s, attempt).Answered? ==>
      AttemptsFrom(s, attempt) == ([RecordAt(s, attempt)], Ok(ResultAt(s, attempt)))
    ensures !OutcomeAt(s, attempt).Answered? && attempt == s.maxAttempts ==>
      AttemptsFrom(s, attempt) == ([RecordAt(s, attempt)],
        if OutcomeAt(s, attempt).Expired? then Err(TaskTimeout(s.task.taskId, s.timeout))
        else Err(RetryExhausted(s.task.taskId, s.maxAttempts, OutcomeAt(s, attempt).message)))
    ensures !OutcomeAt(s, attempt).Answered? && attempt < s.maxAttempts ==>
      AttemptsFrom(s, attempt).0 == [RecordAt(s, attempt)] + AttemptsFrom(s, attempt + 1).0
      && AttemptsFrom(s, attempt).1 == AttemptsFrom(s, attempt + 1).1
  {
  }

  lemma Associative<T>(a: seq<T>, b: seq<T>, c: seq<T>)
    ensures a + b + c == a + (b + c)
  {
  }

  /** A whole `execute` run; with no attempt allowed it raises at once with an empty last error. */
  function Run(s: Setting): (seq<ExecutionRecord>, Result<TaskResult, ExecError>) {
    if s.maxAttempts < 1 then ([], Err(RetryExhausted(s.task.taskId, s.maxAttempts, "")))
    else AttemptsFrom(s, 1)
  }

  /**
   * What a run from `attempt` on looks like: one record per attempt,
   * numbered in order, none successful but possibly the last; a success
   * returns the last attempt's result; an error means every attempt up to
   * the last allowed one failed, and it is a timeout exactly when the last
   * attempt timed out.
   */
  lemma {:induction false} AttemptsFromRecords(s: Setting, attempt: nat)
    requires 1 <= attempt <= s.maxAttempts
    ensures var recs := AttemptsFrom(s, attempt).0;
      && 1 <= |recs| <= s.maxAttempts - attempt + 1
      && (forall i :: 0 <= i < |recs| ==> recs[i] == RecordAt(s, attempt + i))
      && (forall i :: 0 <= i < |recs| - 1 ==> recs[i].status != Completed)
    decreases s.maxAttempts - attempt
  {
    if !OutcomeAt(s, attempt).Answered? && attempt < s.maxAttempts {
      var rest := AttemptsFrom(s, attempt + 1).0;
      var recs := [RecordAt(s, attempt)] + rest;
      assert AttemptsFrom(s, attempt).0 == recs by {
        AttemptsFromStep(s, attempt);
      }
      AttemptsFromRecords(s, attempt + 1);
      forall i | 0 <= i < |recs|
        ensures recs[i] == RecordAt(s, attempt + i)
        ensures i < |recs| - 1 ==> recs[i].status != Completed
      {
        if i > 0 {
          assert recs[i] == rest[i - 1];
        }
      }
    } else {
      assert AttemptsFrom(s, attempt).0 == [RecordAt(s, attempt)] by {
        AttemptsFromStep(s, attempt);
      }
    }
  }

  lemma {:induction false} AttemptsFromResult(s: Setting, attempt: nat)
    requires 1 <= attempt <= s.maxAttempts
    ensures var res := AttemptsFrom(s, attempt);
      var last := attempt + |res.0| - 1;
      && (res.1.Ok? <==> OutcomeAt(s, last).Answered?)
      && (res.1.Ok? ==> res.1.value == ResultAt(s, last))
      && (res.1.Err? ==> last == s.maxAttempts)
      && (res.1.Err? ==> (res.1.error.TaskTimeout? <==> OutcomeAt(s, last).Expired?))
      && (res.1.Err? && res.1.error.RetryExhausted? ==> res.1.error.attempts == s.maxAttempts)
    decreases s.maxAttempts - attempt
  {
    if !OutcomeAt(s, attempt).Answered? && attempt < s.maxAttempts {
      AttemptsFromResult(s, attempt + 1);
      var rest := AttemptsFrom(s, attempt + 1);
      assert |AttemptsFrom(s, attempt).0| == 1 + |rest.0|;
    }
  }

  /**
   * `execute`: at most `max_retries + 1` attempts, one record each, stopping
   * at the first success; a run that raises used every attempt.
   */
  lemma RunSpec(s: Setting)
    ensures var res := Run(s);
      && |res.0| <= (if s.maxAttempts < 1 then 0 else s.maxAttempts)
      && (s.maxAttempts >= 1 ==> |res.0| >= 1)
      && (forall i :: 0 <= i < |res.0| ==> res.0[i].attempt == i + 1 && res.0[i].status in TERMINAL_STATUSES)
      && (forall i :: 0 <= i < |res.0| - 1 ==> res.0[i].status != Completed)
      && (res.1.Ok? <==> |res.0| > 0 && res.0[|res.0| - 1].status == Completed)
      && (res.1.Err? ==> |res.0| == (if s.maxAttempts < 1 then 0 else s.maxAttempts))
      && (res.1.Err? && res.1.error.TaskTimeout? ==> res.0[|res.0| - 1].status == Tasks.TimedOut)
      && (res.1.Err? && res.1.error.RetryExhausted? ==> res.1.error.attempts == s.maxAttempts)
  {
    if s.maxAttempts >= 1 {
      AttemptsFromRecords(s, 1);
      AttemptsFromResult(s, 1);
      var recs := Run(s).0;
      forall i | 0 <= i < |recs| ensures recs[i].attempt == i + 1 && recs[i].status in TERMINAL_STATUSES {
        assert recs[i] == RecordAt(s, 1 + i);
      }
      assert recs[|recs| - 1] == RecordAt(s, |recs|);
    }
  }

  /** A handler that answers after the timeout produces a timeout, not a result. */
  lemma LateResultIsTimeout(s: Setting, attempt: nat)
    requires s.agentId in s.handlers && s.handlers[s.agentId](attempt).Returns?
    requires s.clock(attempt).elapsed > s.timeout
    ensures RecordAt(s, attempt).status == Tasks.TimedOut
  {
  }

  /** Without a handler every task is acknowledged on its first attempt. */
  lemma DefaultDispatchSucceeds(s: Setting)
    requires s.agentId !in s.handlers && s.maxAttempts >= 1
    ensures Run(s).1.Ok? && |Run(s).0| == 1
    ensures Run(s).1.value.resultData["acknowledged"] == Bool(true)
  {
  }

  /** `base * factor ** n` */
  function Power(factor: real, n: nat): real {
    if n == 0 then 1.0 else factor * Power(factor, n - 1)
  }

  lemma {:induction false} PowerAtLeastOne(factor: real, n: nat)
    requires factor >= 1.0
    ensures Power(factor, n) >= 1.0
  {
    if n > 0 { PowerAtLeastOne(factor, n - 1); }
  }

  /** `_calculate_backoff(attempt)`: base * factor ** (attempt - 1), capped. */
  function Backoff(base: real, factor: real, maxDelay: real, attempt: nat): (r: real)
    requires attempt >= 1
    ensures r <= maxDelay
  {
    var delay := base * Power(factor, attempt - 1);
    if delay < maxDelay then delay else maxDelay
  }

  /** With a non-negative base and a factor of at least one, delays never shrink from one retry to the next. */
  lemma BackoffGrows(base: real, factor: real, maxDelay: real, attempt: nat)
    requires attempt >= 1 && base >= 0.0 && factor >= 1.0
    ensures Backoff(base, factor, maxDelay, attempt) <= Backoff(base, factor, maxDelay, attempt + 1)
  {
    var p := Power(factor, attempt - 1);
    PowerAtLeastOne(factor, attempt - 1);
    assert Power(factor, attempt) == factor * p;
    assert base * p <= base * (factor * p) by {
      assert factor * p >= p;
    }
  }

  /** How many records carry a status. */
  function CountStatus(h: seq<ExecutionRecord>, status: TaskStatus): (r: nat)
    ensures r <= |h|
  {
    if h == [] then 0 else (if h[0].status == status then 1 else 0) + CountStatus(h[1..], status)
  }

  /** Every record carries a terminal status, so the distribution accounts for the whole history. */
  lemma {:induction false} DistributionTotal(h: seq<ExecutionRecord>)
    requires forall i :: 0 <= i < |h| ==> h[i].status in TERMINAL_STATUSES
    ensures CountStatus(h, Completed) + CountStatus(h, Tasks.Failed) + CountStatus(h, Tasks.TimedOut) == |h|
  {
    if h != [] {
      DistributionTotal(h[1..]);
    }
  }

  /** The append-then-trim of `_append_record` on the history list. */
  method AppendTrimmedRecord(h: seq<ExecutionRecord>, record: ExecutionRecord, max: int)
    returns (r: seq<ExecutionRecord>)
    ensures r == KeepNewest(h + [record], max)
  {
    r := h + [record];
    if |r| > max {
      var excess := |r| - max;
      r := if excess >= |r| then [] else r[excess..];
    }
  }

  /** A bounded all-terminal history stays bounded and all-terminal when a terminal record is appended and trimmed. */
  lemma TrimmedStaysTerminal(h: seq<ExecutionRecord>, record: ExecutionRecord, max: int)
    requires forall i :: 0 <= i < |h| ==> h[i].status in TERMINAL_STATUSES
    requires record.status in TERMINAL_STATUSES
    ensures var r := KeepNewest(h + [record], max);
      (forall i :: 0 <= i < |r| ==> r[i].status in TERMINAL_STATUSES)
      && |r| <= (if max < 0 then 0 else max)
  {
    var a := h + [record];
    assert forall i :: 0 <= i < |a| ==> a[i].status in TERMINAL_STATUSES by {
      assert forall i :: 0 <= i < |h| ==> a[i] == h[i];
    }
  }

  /** The integer part of `get_execution_stats`; rates and averages are floating point and not modelled. */
  datatype ExecutionStats = ExecutionStats(
    totalExecutions: nat, completed: nat, failed: nat, timedOut: nat, activeTasks: nat)

  /** What `get_active_tasks` reports per task. */
  datatype TaskSummary = TaskSummary(taskId: string, title: string, domain: Option<Domain>,
                                     priority: Priority, status: TaskStatus)

  /** `ExecutorConfig`: timeout, backoff and history settings. */
  datatype ExecutorConfig = ExecutorConfig(
    defaultTimeout: real, baseDelay: real, maxDelay: real, backoffFactor: real, maxHistoryRecords: int)

  /** `ExecutorConfig()`: 300 s timeout, 1 s base delay, 60 s cap, factor 2, 500 records. */
  const DEFAULT_CONFIG: ExecutorConfig := ExecutorConfig(300.0, 1.0, 60.0, 2.0, 500)

  /** The default delays run 1, 2, 4, ... seconds and reach the 60 s cap by the seventh retry. */
  lemma DefaultBackoff()
    ensures Backoff(1.0, 2.0, 60.0, 1) == 1.0 && Backoff(1.0, 2.0, 60.0, 2) == 2.0
    ensures Backoff(1.0, 2.0, 60.0, 6) == 32.0 && Backoff(1.0, 2.0, 60.0, 7) == 60.0
  {
    assert Power(2.0, 6) == 64.0;
  }

  class TaskExecutor {
    var history: seq<ExecutionRecord>
    var activeTasks: map<string, Task>
    const defaultTimeout: real
    const baseDelay: real
    const maxDelay: real
    const backoffFactor: real
    const maxHistoryRecords: int

    /** History holds only attempt records, all terminal, never more than the bound. */
    ghost predicate Valid()
      reads this
    {
      (forall i :: 0 <= i < |history| ==> history[i].status in TERMINAL_STATUSES)
      && |history| <= (if maxHistoryRecords < 0 then 0 else maxHistoryRecords)
    }

    /** An executor with the given configuration (`config or ExecutorConfig()`) and an empty history. */
    constructor(config: ExecutorConfig)
      ensures Valid() && history == [] && activeTasks == map[]
      ensures defaultTimeout == config.defaultTimeout && baseDelay == config.baseDelay
      ensures maxDelay == config.maxDelay && backoffFactor == config.backoffFactor
      ensures maxHistoryRecords == config.maxHistoryRecords
    {
      history := [];
      activeTasks := map[];
      defaultTimeout := config.defaultTimeout;
      baseDelay := config.baseDelay;
      maxDelay := config.maxDelay;
      backoffFactor := config.backoffFactor;
      maxHistoryRecords := config.maxHistoryRecords;
    }

    /** `_append_record`: append, then drop the oldest beyond the bound. */
    method AppendRecord(record: ExecutionRecord)
      requires Valid() && record.status in TERMINAL_STATUSES
      modifies this
      ensures Valid()
      ensures history == KeepNewest(old(history) + [record], maxHistoryRecords)
      ensures activeTasks == old(activeTasks)
      ensures maxHistoryRecords > 0 ==> history != [] && history[|history| - 1] == record
    {
      TrimmedStaysTerminal(history, record, maxHistoryRecords);
      history := AppendTrimmedRecord(history, record, maxHistoryRecords);
    }

    /** The setting a call runs in: the routed agent, the timeout in force and the attempt budget. */
    function SettingFor(task: Task, agentId: string, routingMethod: string,
                        handlers: map<string, Handler>, clock: nat -> Timing): Setting
      reads this
    {
      Setting(task, agentId, routingMethod, handlers, clock, EffectiveTimeout(task, defaultTimeout),
              task.maxRetries + 1)
    }

    /**
     * `execute(task, routing_decision)`: the task is active while it runs and
     * inactive afterwards, the run's records are appended (trimmed as they
     * go), and the result is the run's.
     */
    method Execute(task: Task, agentId: string, routingMethod: string,
                   handlers: map<string, Handler>, clock: nat -> Timing)
      returns (r: Result<TaskResult, ExecError>)
      requires Valid()
      modifies this
      ensures Valid()
      ensures r == Run(SettingFor(task, agentId, routingMethod, handlers, clock)).1
      ensures history == KeepNewest(old(history) + Run(SettingFor(task, agentId, routingMethod, handlers, clock)).0,
                                    maxHistoryRecords)
      ensures activeTasks == old(activeTasks) - {task.taskId}
    {
      var s := SettingFor(task, agentId, routingMethod, handlers, clock);
      ghost var a0 := activeTasks;
      activeTasks := activeTasks[task.taskId := task];
      if s.maxAttempts < 1 {
        assert history + [] == history;
        r := Err(RetryExhausted(task.taskId, s.maxAttempts, ""));
      } else {
        r := RunAttempts(s);
      }
      activeTasks := activeTasks - {task.taskId};
      assert activeTasks == a0 - {task.taskId};
    }

    /** The retry loop of `execute`: one attempt after another until one answers or none is left. */
    method RunAttempts(s: Setting) returns (r: Result<TaskResult, ExecError>)
      requires Valid() && s.maxAttempts >= 1
      modifies this
      ensures Valid()
      ensures r == Run(s).1
      ensures history == KeepNewest(old(history) + Run(s).0, maxHistoryRecords)
      ensures activeTasks == old(activeTasks)
    {
      ghost var h0 := history;
      var attempt := 1;
      ghost var total := Run(s);
      ghost var done: seq<ExecutionRecord> := [];
      assert h0 + done == h0;
      while true
        invariant 1 <= attempt <= s.maxAttempts
        invariant Valid()
        invariant activeTasks == old(activeTasks)
        invariant history == KeepNewest(h0 + done, maxHistoryRecords)
        invariant total.0 == done + AttemptsFrom(s, attempt).0
        invariant total.1 == AttemptsFrom(s, attempt).1
        decreases s.maxAttempts - attempt
      {
        var outcome := OutcomeAt(s, attempt);
        var record := RecordAt(s, attempt);
        AppendRecord(record);
        assert history == KeepNewest(h0 + (done + [record]), maxHistoryRecords) by {
          KeepNewestAbsorbs(h0 + done, [record], maxHistoryRecords);
          Associative(h0, done, [record]);
        }
        if outcome.Answered? {
          assert AttemptsFrom(s, attempt) == ([record], Ok(ResultAt(s, attempt))) by {
            AttemptsFromStep(s, attempt);
          }
          r := Ok(ResultAt(s, attempt));
          return;
        } else if attempt == s.maxAttempts {
          r := if outcome.Expired? then Err(TaskTimeout(s.task.taskId, s.timeout))
               else Err(RetryExhausted(s.task.taskId, s.maxAttempts, outcome.message));
          assert AttemptsFrom(s, attempt) == ([record], r) by {
            AttemptsFromStep(s, attempt);
          }
          return;
        }
        assert total.0 == (done + [record]) + AttemptsFrom(s, attempt + 1).0
          && total.1 == AttemptsFrom(s, attempt + 1).1 by {
          AttemptsFromStep(s, attempt);
          Associative(done, [record], AttemptsFrom(s, attempt + 1).0);
        }
        done := done + [record];
        attempt := attempt + 1;
      }
    }

    /** `_calculate_backoff(attempt)` with this executor's configuration. */
    function BackoffFor(attempt: nat): (r: real)
      requires attempt >= 1
      reads this
      ensures r <= maxDelay
    {
      Backoff(baseDelay, backoffFactor, maxDelay, attempt)
    }

    /** The records of one task (a non-empty id filters; None or "" keeps every record), in history order. */
    function Matching(taskId: Option<string>): (r: seq<ExecutionRecord>)
      reads this
      ensures |r| <= |history|
      ensures taskId.Some? && taskId.value != [] ==> r == Where(history, OfTask(taskId.value))
      ensures taskId.Some? && taskId.value != [] ==>
        forall x :: x in r <==> x in history && x.taskId == taskId.value
      ensures taskId.None? || taskId.value == [] ==> r == history
    {
      if taskId.Some? && taskId.value != [] then Where(history, OfTask(taskId.value)) else history
    }

    /** `get_execution_history(task_id, limit)`: the matching records, newest first, limited as the slice does. */
    function GetExecutionHistory(taskId: Option<string>, limit: int): (r: seq<ExecutionRecord>)
      reads this
      ensures |r| == SliceLength(|Matching(taskId)|, limit)
      ensures forall i :: 0 <= i < |r| ==> r[i] == Matching(taskId)[|Matching(taskId)| - 1 - i]
    {
      NewestFirstSpec(Matching(taskId), limit);
      NewestFirst(Matching(taskId), limit)
    }

    /** `get_active_tasks()`: one summary per active task. */
    function GetActiveTasks(): (r: map<string, TaskSummary>)
      reads this
      ensures r.Keys == activeTasks.Keys
      ensures forall id :: id in r ==>
        (r[id].taskId == activeTasks[id].taskId && r[id].title == activeTasks[id].title
         && r[id].domain == activeTasks[id].domain && r[id].priority == activeTasks[id].priority
         && r[id].status == activeTasks[id].status)
    {
      map id | id in activeTasks :: TaskSummary(activeTasks[id].taskId, activeTasks[id].title,
        activeTasks[id].domain, activeTasks[id].priority, activeTasks[id].status)
    }

    /** `get_execution_stats()`, counting part. */
    function GetExecutionStats(): (r: ExecutionStats)
      requires Valid()
      reads this
      ensures r.totalExecutions == |history| == r.completed + r.failed + r.timedOut
      ensures r.activeTasks == |activeTasks.Keys|
    {
      DistributionTotal(history);
      ExecutionStats(|history|, CountStatus(history, Completed), CountStatus(history, Tasks.Failed),
                     CountStatus(history, Tasks.TimedOut), |activeTasks|)
    }
  }

  /** `r.task_id == task_id` as a filter: `[r for r in history if r.task_id == task_id]` is `Where(history, OfTask(task_id))`. */
  function OfTask(taskId: string): ExecutionRecord -> bool {
    (x: ExecutionRecord) => x.taskId == taskId
  }

  /**
   * A task-filtered history query after one more record: the new record comes
   * last exactly when it belongs to the task, and the earlier answer is kept
   * in front, in history order.
   */
  lemma TaskHistoryAppend(h: seq<ExecutionRecord>, record: ExecutionRecord, taskId: string)
    ensures Where(h + [record], OfTask(taskId)) ==
      Where(h, OfTask(taskId)) + (if record.taskId == taskId then [record] else [])
  {
    WhereAppend(h, record, OfTask(taskId));
  }
}
