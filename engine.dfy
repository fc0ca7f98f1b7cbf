/**
 * The workflow engine: it starts executions of validated definitions and
 * advances them one batch of ready steps at a time, applying each step's
 * `on_failure` policy. Step execution is an oracle (the executor/router
 * dispatch), with `AcknowledgeStep` as the engine's own default result.
 */
module Engine {
  import opened Common
  import opened Json
  import opened Agents
  import Tasks
  import opened Workflows

  /** What running one step produced: a TaskResult, or the message of the exception it raised. */
  datatype StepOutcome = Succeeded(result: Tasks.TaskResult) | Raised(message: string)

  /** `WorkflowStepFailedError(step_id, reason)` */
  datatype StepFailure = StepFailure(stepId: string, reason: string)

  /** A definition that passed every `WorkflowDefinition` validator. */
  predicate WellFormed(d: Definition) {
    !IsBlank(d.workflowId) && |d.steps| > 0
    && UniqueStepIds(d.steps) && DependenciesKnown(d.steps) && NoSelfDependency(d.steps)
  }

  const ENGINE_AGENT: string := "workflow-engine"

  // ------------------------------------------------------------------
  // Step lookup and readiness
  // ------------------------------------------------------------------

  /** `{step.step_id: step for step in steps}`: a later step with the same id overrides an earlier one. */
  function StepMap(steps: seq<Step>): (m: map<string, Step>)
    ensures forall id :: id in m <==> id in StepIds(steps)
    ensures forall id :: id in m ==> m[id].stepId == id && m[id] in steps
    decreases |steps|
  {
    if steps == [] then map[]
    else
      var init := steps[..|steps| - 1];
      var last := steps[|steps| - 1];
      assert forall i :: 0 <= i < |init| ==> StepIds(init)[i] == StepIds(steps)[i];
      assert StepIds(steps) == StepIds(init) + [last.stepId];
      StepMap(init)[last.stepId := last]
  }

  /** With unique ids, the map sends each step's id to that step. */
  lemma {:induction false} StepMapAt(steps: seq<Step>, i: int)
    requires UniqueStepIds(steps) && 0 <= i < |steps|
    ensures steps[i].stepId in StepMap(steps) && StepMap(steps)[steps[i].stepId] == steps[i]
    decreases |steps|
  {
    var init := steps[..|steps| - 1];
    if i < |steps| - 1 {
      assert forall a :: 0 <= a < |init| ==> StepIds(init)[a] == StepIds(steps)[a];
      assert UniqueStepIds(init);
      StepMapAt(init, i);
      assert StepIds(steps)[i] != StepIds(steps)[|steps| - 1];
    }
  }

  /** Every dependency of the step is among the completed ids. */
  predicate DepsDone(step: Step, completed: seq<string>) {
    forall d :: d in step.dependsOn ==> d in completed
  }

  /** The readiness filter of `get_ready_steps`, over `steps_remaining` in order. */
  function ReadySteps(remaining: seq<string>, completed: seq<string>, stepMap: map<string, Step>): seq<string>
    decreases |remaining|
  {
    if remaining == [] then []
    else
      var id := remaining[0];
      (if id in stepMap && DepsDone(stepMap[id], completed) then [id] else [])
        + ReadySteps(remaining[1..], completed, stepMap)
  }

  /** `a` is `b` with some elements deleted (order kept). */
  predicate Subsequence(a: seq<string>, b: seq<string>)
    decreases |b|
  {
    a == [] || (b != [] && ((a[0] == b[0] && Subsequence(a[1..], b[1..])) || Subsequence(a, b[1..])))
  }

  /**
   * The ready list holds exactly the remaining ids that name a step whose
   * dependencies are all completed, in `steps_remaining` order.
   */
  lemma {:induction false} ReadyStepsSpec(remaining: seq<string>, completed: seq<string>, stepMap: map<string, Step>)
    ensures var r := ReadySteps(remaining, completed, stepMap);
      (forall id :: id in r <==> id in remaining && id in stepMap && DepsDone(stepMap[id], completed))
      && Subsequence(r, remaining) && multiset(r) <= multiset(remaining)
    decreases |remaining|
  {
    if remaining != [] {
      var rest := remaining[1..];
      ReadyStepsSpec(rest, completed, stepMap);
      assert remaining == [remaining[0]] + rest;
      var r := ReadySteps(remaining, completed, stepMap);
      var tail := ReadySteps(rest, completed, stepMap);
      if r != tail {
        assert r == [remaining[0]] + tail && r[1..] == tail;
      }
    }
  }

  // ------------------------------------------------------------------
  // One step and one batch
  // ------------------------------------------------------------------

  /** `list.remove(x)`: drop the first occurrence of `x`. */
  function RemoveFirst(s: seq<string>, x: string): (r: seq<string>)
    ensures x in s ==> multiset(r) == multiset(s) - multiset{x}
    ensures x !in s ==> r == s
    decreases |s|
  {
    if s == [] then []
    else
      assert s == [s[0]] + s[1..];
      if s[0] == x then s[1..] else [s[0]] + RemoveFirst(s[1..], x)
  }

  /** The FAILED result recorded for a step skipped under `on_failure="skip"`. */
  function SkippedResult(stepId: string, message: string, now: int): Tasks.TaskResult {
    Tasks.TaskResult(stepId, ENGINE_AGENT, Tasks.Failed, map[], Some(message), now, now, 0.0)
  }

  /** A step leaves the remaining list for the completed list with its result recorded. */
  function MarkDone(e: Execution, id: string, result: Tasks.TaskResult): Execution {
    e.(stepResults := e.stepResults[id := result],
       stepsCompleted := e.stepsCompleted + [id],
       stepsRemaining := RemoveFirst(e.stepsRemaining, id),
       currentStepId := None,
       status := StepCompleted)
  }

  /** The error message `advance_workflow` stores when a "stop" step raises. */
  function StopMessage(stepId: string, reason: string): string {
    "Step '" + stepId + "' failed: " + reason
  }

  /**
   * One iteration of the batch loop: mark the step executing, run it, then
   * record success, or apply `on_failure` ("stop" fails the execution, "skip"
   * records a FAILED result and completes the step, "retry" has no branch).
   */
  function RunStep(e: Execution, step: Step, outcome: StepOutcome, now: int): (Execution, Option<StepFailure>) {
    var id := step.stepId;
    var running := e.(currentStepId := Some(id), status := StepExecuting);
    match outcome
    case Succeeded(result) =>
      var done := MarkDone(running, id, result);
      (if result.resultData != map[] then done.(context := done.context[id := Dict(result.resultData)]) else done, None)
    case Raised(message) =>
      if step.onFailure == "stop" then
        (running.(status := Failed, errorMessage := Some(StopMessage(id, message)),
                  completedAt := Some(now), currentStepId := None),
         Some(StepFailure(id, message)))
      else if step.onFailure == "skip" then
        (MarkDone(running, id, SkippedResult(id, message, now)), None)
      else
        (running, None)
  }

  /** The loop over the ready ids: ids with no step are passed over; a "stop" failure ends the batch. */
  function RunBatch(e: Execution, ready: seq<string>, stepMap: map<string, Step>,
                    oracle: (Step, Object) -> StepOutcome, now: int): (Execution, Option<StepFailure>)
    decreases |ready|
  {
    if ready == [] then (e, None)
    else if ready[0] !in stepMap then RunBatch(e, ready[1..], stepMap, oracle, now)
    else
      var step := stepMap[ready[0]];
      var res := RunStep(e, step, oracle(step, e.context), now);
      if res.1.Some? then res else RunBatch(res.0, ready[1..], stepMap, oracle, now)
  }

  /** `if not execution.steps_remaining: status = COMPLETED` */
  function FinishIfDone(e: Execution, now: int): Execution {
    if e.stepsRemaining == [] then e.(status := Completed, completedAt := Some(now)) else e
  }

  /** `status in (RUNNING, STEP_COMPLETED)`: the only states that can be advanced. */
  predicate Advanceable(s: WorkflowStatus) {
    s == Running || s == StepCompleted
  }

  /** `advance_workflow`, given the definition registered for the execution (if any). */
  function Advance(e: Execution, def: Option<Definition>, oracle: (Step, Object) -> StepOutcome, now: int)
    : (Execution, Option<StepFailure>)
  {
    if !Advanceable(e.status) then (e, None)
    else if def.None? then
      (e.(status := Failed, errorMessage := Some("Workflow definition not found for execution"),
          completedAt := Some(now)), None)
    else
      var stepMap := StepMap(def.value.steps);
      var ready := ReadySteps(e.stepsRemaining, e.stepsCompleted, stepMap);
      if ready == [] then (FinishIfDone(e, now), None)
      else
        var (e1, failure) := RunBatch(e, ready, stepMap, oracle, now);
        if failure.Some? then (e1, failure) else (FinishIfDone(e1, now), None)
  }

  // ------------------------------------------------------------------
  // Invariants of an execution
  // ------------------------------------------------------------------

  /** Remaining and completed ids together are exactly the definition's step ids, each once. */
  predicate Partitioned(e: Execution, steps: seq<Step>) {
    multiset(e.stepsRemaining) + multiset(e.stepsCompleted) == multiset(StepIds(steps))
  }

  /** A completed step's dependencies are all completed too. */
  predicate CompletedClosed(e: Execution, stepMap: map<string, Step>) {
    forall id :: id in e.stepsCompleted && id in stepMap ==> DepsDone(stepMap[id], e.stepsCompleted)
  }

  /** The facts the batch loop keeps while it works through `ready`, stated on the two id lists. */
  predicate BatchOk(remaining: seq<string>, completed: seq<string>, ready: seq<string>,
                    stepMap: map<string, Step>, ids: multiset<string>) {
    multiset(remaining) + multiset(completed) == ids
    && multiset(ready) <= multiset(remaining)
    && (forall id :: id in completed && id in stepMap ==> DepsDone(stepMap[id], completed))
    && (forall id :: id in ready && id in stepMap ==> DepsDone(stepMap[id], completed))
  }

  predicate BatchInvariant(e: Execution, ready: seq<string>, stepMap: map<string, Step>, ids: multiset<string>) {
    BatchOk(e.stepsRemaining, e.stepsCompleted, ready, stepMap, ids)
  }

  /** Moving the first ready id from remaining to completed keeps the batch facts for the rest of the batch. */
  lemma MoveKeeps(remaining: seq<string>, completed: seq<string>, ready: seq<string>,
                  stepMap: map<string, Step>, ids: multiset<string>)
    requires ready != [] && BatchOk(remaining, completed, ready, stepMap, ids)
    ensures BatchOk(RemoveFirst(remaining, ready[0]), completed + [ready[0]], ready[1..], stepMap, ids)
    ensures BatchOk(remaining, completed, ready[1..], stepMap, ids)
  {
    MoveCounts(remaining, completed, ready);
    MoveClosed(completed, ready, stepMap);
  }

  /** The id counts of a move: one copy of `ready[0]` goes from remaining to completed. */
  lemma MoveCounts(remaining: seq<string>, completed: seq<string>, ready: seq<string>)
    requires ready != [] && multiset(ready) <= multiset(remaining)
    ensures multiset(RemoveFirst(remaining, ready[0])) + multiset(completed + [ready[0]])
      == multiset(remaining) + multiset(completed)
    ensures multiset(ready[1..]) <= multiset(RemoveFirst(remaining, ready[0]))
    ensures multiset(ready[1..]) <= multiset(remaining)
  {
    var id := ready[0];
    assert ready == [id] + ready[1..];
    assert multiset(ready) == multiset{id} + multiset(ready[1..]);
    assert id in multiset(remaining);
    assert multiset(completed + [id]) == multiset(completed) + multiset{id};
  }

  /** Completing a ready id keeps every completed and every later ready step's dependencies done. */
  lemma MoveClosed(completed: seq<string>, ready: seq<string>, stepMap: map<string, Step>)
    requires ready != []
    requires forall id :: id in completed && id in stepMap ==> DepsDone(stepMap[id], completed)
    requires forall id :: id in ready && id in stepMap ==> DepsDone(stepMap[id], completed)
    ensures var c1 := completed + [ready[0]];
      (forall id :: id in c1 && id in stepMap ==> DepsDone(stepMap[id], c1))
      && (forall id :: id in ready[1..] && id in stepMap ==> DepsDone(stepMap[id], c1))
  {
    var c1 := completed + [ready[0]];
    forall x | x in c1 && x in stepMap
      ensures DepsDone(stepMap[x], c1)
    {
      assert DepsDone(stepMap[x], completed);
    }
    forall x | x in ready[1..] && x in stepMap
      ensures DepsDone(stepMap[x], c1)
    {
      assert x in ready;
      assert DepsDone(stepMap[x], completed);
    }
  }

  /** One step either moves its id from remaining to completed, or leaves both lists alone. */
  lemma RunStepLists(e: Execution, step: Step, outcome: StepOutcome, now: int)
    ensures var e1 := RunStep(e, step, outcome, now).0;
      e1.executionId == e.executionId && e1.workflowId == e.workflowId
      && ((e1.stepsCompleted == e.stepsCompleted + [step.stepId]
           && e1.stepsRemaining == RemoveFirst(e.stepsRemaining, step.stepId))
          || (e1.stepsCompleted == e.stepsCompleted && e1.stepsRemaining == e.stepsRemaining))
  {
  }

  /** A step that succeeds completes: its id moves over and the status is STEP_COMPLETED. */
  lemma RunStepSucceeded(e: Execution, step: Step, outcome: StepOutcome, now: int)
    requires outcome.Succeeded?
    ensures var res := RunStep(e, step, outcome, now);
      res.1.None? && res.0.status == StepCompleted
      && res.0.stepsCompleted == e.stepsCompleted + [step.stepId]
      && res.0.stepsRemaining == RemoveFirst(e.stepsRemaining, step.stepId)
  {
  }

  lemma AppendFirst<T>(c: seq<T>, s: seq<T>)
    requires s != []
    ensures (c + [s[0]]) + s[1..] == c + s
  {
    assert s == [s[0]] + s[1..];
  }

  /** Multiset bookkeeping for removing the first ready id. */
  lemma RemoveReady(remaining: seq<string>, ready: seq<string>)
    requires ready != [] && multiset(ready) <= multiset(remaining)
    ensures multiset(ready[1..]) <= multiset(RemoveFirst(remaining, ready[0]))
    ensures multiset(RemoveFirst(remaining, ready[0])) - multiset(ready[1..]) == multiset(remaining) - multiset(ready)
  {
    var x := ready[0];
    assert ready == [x] + ready[1..];
    var a, b := multiset(remaining), multiset(ready);
    var a1, b1 := multiset(RemoveFirst(remaining, x)), multiset(ready[1..]);
    assert x in b;
    assert x in a;
    assert b1 == b - multiset{x};
    assert a1 == a - multiset{x};
    forall y
      ensures b1[y] <= a1[y] && (a1 - b1)[y] == (a - b)[y]
    {
      assert b[y] <= a[y];
    }
    assert a1 - b1 == a - b;
  }

  lemma RunStepKeeps(e: Execution, ready: seq<string>, stepMap: map<string, Step>, ids: multiset<string>,
                     outcome: StepOutcome, now: int)
    requires ready != [] && ready[0] in stepMap && stepMap[ready[0]].stepId == ready[0]
    requires BatchInvariant(e, ready, stepMap, ids)
    ensures var e1 := RunStep(e, stepMap[ready[0]], outcome, now).0;
      BatchInvariant(e1, ready[1..], stepMap, ids)
      && e1.executionId == e.executionId && e1.workflowId == e.workflowId
      && |e1.stepsCompleted| >= |e.stepsCompleted|
      && e1.stepsCompleted[..|e.stepsCompleted|] == e.stepsCompleted
      && (forall id :: id in e1.stepsCompleted ==> id in e.stepsCompleted || id == ready[0])
  {
    var e1 := RunStep(e, stepMap[ready[0]], outcome, now).0;
    RunStepLists(e, stepMap[ready[0]], outcome, now);
    MoveKeeps(e.stepsRemaining, e.stepsCompleted, ready, stepMap, ids);
    assert (e.stepsCompleted + [ready[0]])[..|e.stepsCompleted|] == e.stepsCompleted;
    assert e.stepsCompleted[..|e.stepsCompleted|] == e.stepsCompleted;
  }

  /** The batch keeps the invariant, extends completed only by ids of the ready list, and keeps the execution id. */
  lemma {:induction false} RunBatchKeeps(e: Execution, ready: seq<string>, stepMap: map<string, Step>,
                                         oracle: (Step, Object) -> StepOutcome, now: int, ids: multiset<string>)
    requires BatchInvariant(e, ready, stepMap, ids)
    requires forall id :: id in stepMap ==> stepMap[id].stepId == id
    ensures var res := RunBatch(e, ready, stepMap, oracle, now); var r, f := res.0, res.1;
      multiset(r.stepsRemaining) + multiset(r.stepsCompleted) == ids
      && CompletedClosed(r, stepMap)
      && r.executionId == e.executionId && r.workflowId == e.workflowId
      && |r.stepsCompleted| >= |e.stepsCompleted|
      && r.stepsCompleted[..|e.stepsCompleted|] == e.stepsCompleted
      && (forall id :: id in r.stepsCompleted ==> id in e.stepsCompleted || id in ready)
    decreases |ready|
  {
    if ready != [] {
      if ready[0] !in stepMap {
        assert multiset(ready[1..]) <= multiset(ready) by { assert ready == [ready[0]] + ready[1..]; }
        RunBatchKeeps(e, ready[1..], stepMap, oracle, now, ids);
      } else {
        var step := stepMap[ready[0]];
        var outcome := oracle(step, e.context);
        RunStepKeeps(e, ready, stepMap, ids, outcome, now);
        var res := RunStep(e, step, outcome, now); var e1, failure := res.0, res.1;
        if failure.None? {
          RunBatchKeeps(e1, ready[1..], stepMap, oracle, now, ids);
          var res := RunBatch(e1, ready[1..], stepMap, oracle, now); var r, f := res.0, res.1;
          assert r.stepsCompleted[..|e.stepsCompleted|] == r.stepsCompleted[..|e1.stepsCompleted|][..|e.stepsCompleted|];
        }
      }
    }
  }

  /**
   * advance_workflow keeps remaining/completed a partition of the step ids and
   * keeps every completed step's dependencies completed; it only appends to
   * completed, and only ids that were ready when the call started.
   */
  lemma AdvanceKeepsPartition(e: Execution, d: Definition, oracle: (Step, Object) -> StepOutcome, now: int)
    requires Partitioned(e, d.steps) && CompletedClosed(e, StepMap(d.steps))
    ensures var res := Advance(e, Some(d), oracle, now); var r, f := res.0, res.1;
      Partitioned(r, d.steps) && CompletedClosed(r, StepMap(d.steps))
      && r.executionId == e.executionId && r.workflowId == e.workflowId
      && |r.stepsCompleted| >= |e.stepsCompleted|
      && r.stepsCompleted[..|e.stepsCompleted|] == e.stepsCompleted
      && (forall id :: id in r.stepsCompleted && id !in e.stepsCompleted ==>
            id in ReadySteps(e.stepsRemaining, e.stepsCompleted, StepMap(d.steps)))
  {
    var m := StepMap(d.steps);
    var ids := multiset(StepIds(d.steps));
    assert e.stepsCompleted[..|e.stepsCompleted|] == e.stepsCompleted;
    if Advanceable(e.status) {
      var ready := ReadySteps(e.stepsRemaining, e.stepsCompleted, m);
      AdvanceFromBatch(e, d, oracle, now);
      if ready != [] {
        assert BatchInvariant(e, ready, m, ids) by {
          ReadyStepsSpec(e.stepsRemaining, e.stepsCompleted, m);
        }
        RunBatchKeeps(e, ready, m, oracle, now, ids);
      }
    }
  }

  /** Two executions of the same run with the same id lists. */
  predicate SameProgress(x: Execution, y: Execution) {
    x.executionId == y.executionId && x.workflowId == y.workflowId
    && x.stepsRemaining == y.stepsRemaining && x.stepsCompleted == y.stepsCompleted
  }

  /** An advance moves ids exactly as its batch over the ready steps does; finishing only sets the status. */
  lemma AdvanceFromBatch(e: Execution, d: Definition, oracle: (Step, Object) -> StepOutcome, now: int)
    requires Advanceable(e.status)
    ensures var m := StepMap(d.steps);
      var ready := ReadySteps(e.stepsRemaining, e.stepsCompleted, m);
      SameProgress(Advance(e, Some(d), oracle, now).0, RunBatch(e, ready, m, oracle, now).0)
  {
  }

  /**
   * Status becomes COMPLETED exactly when nothing remains: whenever an
   * advanceable execution with a definition is advanced without a "stop"
   * failure, the result is COMPLETED iff its remaining list is empty.
   */
  lemma AdvanceCompletedIffEmpty(e: Execution, d: Definition, oracle: (Step, Object) -> StepOutcome, now: int)
    requires Advanceable(e.status)
    ensures var res := Advance(e, Some(d), oracle, now); var r, f := res.0, res.1;
      f.None? ==> (r.status == Completed <==> r.stepsRemaining == [])
  {
    var stepMap := StepMap(d.steps);
    var ready := ReadySteps(e.stepsRemaining, e.stepsCompleted, stepMap);
    if ready != [] {
      RunBatchStatus(e, ready, stepMap, oracle, now);
    }
  }

  lemma {:induction false} RunBatchStatus(e: Execution, ready: seq<string>, stepMap: map<string, Step>,
                                          oracle: (Step, Object) -> StepOutcome, now: int)
    requires e.status != Completed
    ensures var res := RunBatch(e, ready, stepMap, oracle, now); var r, f := res.0, res.1; r.status != Completed
    decreases |ready|
  {
    if ready != [] {
      if ready[0] !in stepMap {
        RunBatchStatus(e, ready[1..], stepMap, oracle, now);
      } else {
        var step := stepMap[ready[0]];
        var res := RunStep(e, step, oracle(step, e.context), now); var e1, failure := res.0, res.1;
        if failure.None? {
          RunBatchStatus(e1, ready[1..], stepMap, oracle, now);
        }
      }
    }
  }

  /** Only RUNNING and STEP_COMPLETED executions move; advancing anything else (COMPLETED included) is a no-op. */
  lemma AdvanceNoOpUnlessAdvanceable(e: Execution, def: Option<Definition>, oracle: (Step, Object) -> StepOutcome, now: int)
    requires !Advanceable(e.status)
    ensures Advance(e, def, oracle, now) == (e, None)
  {
  }

  /** Without a registered definition an advanceable execution is FAILED with a fixed message and nothing runs. */
  lemma AdvanceWithoutDefinition(e: Execution, oracle: (Step, Object) -> StepOutcome, now: int)
    requires Advanceable(e.status)
    ensures var res := Advance(e, None, oracle, now); var r, f := res.0, res.1;
      f.None? && r.status == Failed && r.errorMessage == Some("Workflow definition not found for execution")
      && r.stepsRemaining == e.stepsRemaining && r.stepsCompleted == e.stepsCompleted
  {
  }

  // ------------------------------------------------------------------
  // Batches where every step succeeds, and progress
  // ------------------------------------------------------------------

  ghost predicate AllSucceed(oracle: (Step, Object) -> StepOutcome) {
    forall s, c :: oracle(s, c).Succeeded?
  }

  /** With every step succeeding, the batch completes exactly the ready steps, in order. */
  lemma {:induction false} RunBatchAllSucceed(e: Execution, ready: seq<string>, stepMap: map<string, Step>,
                                              oracle: (Step, Object) -> StepOutcome, now: int)
    requires AllSucceed(oracle)
    requires forall id :: id in ready ==> id in stepMap && stepMap[id].stepId == id
    requires multiset(ready) <= multiset(e.stepsRemaining)
    ensures var res := RunBatch(e, ready, stepMap, oracle, now);
      res.1.None? && res.0.stepsCompleted == e.stepsCompleted + ready
      && multiset(res.0.stepsRemaining) == multiset(e.stepsRemaining) - multiset(ready)
      && (ready != [] ==> res.0.status == StepCompleted)
    decreases |ready|
  {
    if ready == [] {
      assert e.stepsCompleted + ready == e.stepsCompleted;
    } else {
      var id := ready[0];
      var step := stepMap[id];
      var outcome := oracle(step, e.context);
      RunStepSucceeded(e, step, outcome, now);
      var e1 := RunStep(e, step, outcome, now).0;
      var res := RunBatch(e1, ready[1..], stepMap, oracle, now);
      assert RunBatch(e, ready, stepMap, oracle, now) == res;
      RemoveReady(e.stepsRemaining, ready);
      RunBatchAllSucceed(e1, ready[1..], stepMap, oracle, now);
      var r := res.0;
      AppendFirst(e.stepsCompleted, ready);
      assert multiset(r.stepsRemaining) == multiset(e.stepsRemaining) - multiset(ready);
      assert r.status == StepCompleted by {
        if ready[1..] == [] {
          assert res == (e1, None);
        }
      }
    }
  }

  /**
   * A strict topological order of the definition's steps: `order` lists every
   * step id once and every dependency comes before its dependent. A
   * definition has one exactly when its dependencies are acyclic.
   */
  ghost predicate TopologicalOrder(steps: seq<Step>, order: seq<string>) {
    var m := StepMap(steps);
    Distinct(order)
    && (forall id :: id in order <==> id in m)
    && (forall i, j :: 0 <= i < |order| && 0 <= j < |order| && order[j] in m[order[i]].dependsOn ==> j < i)
  }

  /** Some remaining id is the earliest remaining one in `order`. */
  lemma {:induction false} EarliestRemaining(order: seq<string>, remaining: seq<string>, k: int) returns (i: int)
    requires 0 <= k < |order| && order[k] in remaining
    ensures 0 <= i <= k && order[i] in remaining
    ensures forall j :: 0 <= j < i ==> order[j] !in remaining
    decreases k
  {
    if j :| 0 <= j < k && order[j] in remaining {
      i := EarliestRemaining(order, remaining, j);
    } else {
      i := k;
    }
  }

  /** With an acyclic definition, the earliest remaining id in topological order is ready. */
  lemma SomeStepReady(e: Execution, d: Definition, order: seq<string>)
    requires WellFormed(d) && Partitioned(e, d.steps) && TopologicalOrder(d.steps, order)
    requires e.stepsRemaining != []
    ensures ReadySteps(e.stepsRemaining, e.stepsCompleted, StepMap(d.steps)) != []
  {
    var m := StepMap(d.steps);
    var i := EarliestRemainingStep(e, d, order);
    var x := order[i];
    assert x in m;
    assert DepsDone(m[x], e.stepsCompleted) by {
      EarlierStepsDone(e, d, order, i);
    }
    assert x in ReadySteps(e.stepsRemaining, e.stepsCompleted, m) by {
      ReadyStepsSpec(e.stepsRemaining, e.stepsCompleted, m);
    }
  }

  /** Some remaining step comes first, in topological order, among the remaining ones. */
  lemma EarliestRemainingStep(e: Execution, d: Definition, order: seq<string>) returns (i: int)
    requires Partitioned(e, d.steps) && TopologicalOrder(d.steps, order)
    requires e.stepsRemaining != []
    ensures 0 <= i < |order| && order[i] in e.stepsRemaining
    ensures forall j :: 0 <= j < i ==> order[j] !in e.stepsRemaining
  {
    var y := e.stepsRemaining[0];
    assert y in multiset(StepIds(d.steps));
    assert y in StepMap(d.steps);
    var k :| 0 <= k < |order| && order[k] == y;
    i := EarliestRemaining(order, e.stepsRemaining, k);
  }

  /** Every dependency of the earliest remaining step in topological order is completed. */
  lemma EarlierStepsDone(e: Execution, d: Definition, order: seq<string>, i: int)
    requires WellFormed(d) && Partitioned(e, d.steps) && TopologicalOrder(d.steps, order)
    requires 0 <= i < |order| && forall j :: 0 <= j < i ==> order[j] !in e.stepsRemaining
    ensures order[i] in StepMap(d.steps) && DepsDone(StepMap(d.steps)[order[i]], e.stepsCompleted)
  {
    var m := StepMap(d.steps);
    var ids := StepIds(d.steps);
    var x := order[i];
    assert x in m;
    forall dep | dep in m[x].dependsOn
      ensures dep in e.stepsCompleted
    {
      assert dep in ids by {
        var a :| 0 <= a < |d.steps| && d.steps[a] == m[x];
      }
      assert dep !in e.stepsRemaining by {
        assert dep in m;
        var j :| 0 <= j < |order| && order[j] == dep;
        assert j < i;
      }
      assert multiset(e.stepsCompleted)[dep] > 0 by {
        assert multiset(ids)[dep] > 0;
        assert multiset(e.stepsRemaining)[dep] == 0;
      }
    }
  }

  /**
   * Progress: for an acyclic definition whose steps all succeed, every
   * advance of an unfinished, advanceable execution completes at least one
   * step and leaves it advanceable or COMPLETED.
   */
  lemma AdvanceProgress(e: Execution, d: Definition, order: seq<string>,
                        oracle: (Step, Object) -> StepOutcome, now: int)
    requires WellFormed(d) && Partitioned(e, d.steps) && TopologicalOrder(d.steps, order)
    requires AllSucceed(oracle) && Advanceable(e.status) && e.stepsRemaining != []
    ensures var res := Advance(e, Some(d), oracle, now); var r, f := res.0, res.1;
      f.None? && |r.stepsRemaining| < |e.stepsRemaining|
      && (r.status == Completed || r.status == StepCompleted)
  {
    var m := StepMap(d.steps);
    var ready := ReadySteps(e.stepsRemaining, e.stepsCompleted, m);
    SomeStepReady(e, d, order);
    ReadyBatchSucceeds(e, m, oracle, now);
    var r1 := RunBatch(e, ready, m, oracle, now).0;
    RemovingShrinks(r1.stepsRemaining, e.stepsRemaining, ready);
    assert Advance(e, Some(d), oracle, now) == (FinishIfDone(r1, now), None);
  }

  /** The ready batch of any execution runs to the end when every step succeeds. */
  lemma ReadyBatchSucceeds(e: Execution, m: map<string, Step>, oracle: (Step, Object) -> StepOutcome, now: int)
    requires AllSucceed(oracle)
    requires forall id :: id in m ==> m[id].stepId == id
    ensures var ready := ReadySteps(e.stepsRemaining, e.stepsCompleted, m);
      var res := RunBatch(e, ready, m, oracle, now);
      multiset(ready) <= multiset(e.stepsRemaining)
      && res.1.None? && res.0.stepsCompleted == e.stepsCompleted + ready
      && multiset(res.0.stepsRemaining) == multiset(e.stepsRemaining) - multiset(ready)
      && (ready != [] ==> res.0.status == StepCompleted)
  {
    var ready := ReadySteps(e.stepsRemaining, e.stepsCompleted, m);
    assert multiset(ready) <= multiset(e.stepsRemaining)
      && forall id :: id in ready ==> id in m by {
      ReadyStepsSpec(e.stepsRemaining, e.stepsCompleted, m);
    }
    RunBatchAllSucceed(e, ready, m, oracle, now);
  }

  /** Taking a non-empty sub-multiset away leaves a strictly shorter list. */
  lemma RemovingShrinks(r: seq<string>, s: seq<string>, gone: seq<string>)
    requires gone != [] && multiset(gone) <= multiset(s)
    requires multiset(r) == multiset(s) - multiset(gone)
    ensures |r| < |s|
  {
    assert multiset(s) == multiset(r) + multiset(gone);
    assert |multiset(gone)| == |gone| > 0;
  }

  /** With every step succeeding, one advance completes exactly the steps that were ready, in order. */
  lemma AdvanceRunsExactlyReady(e: Execution, d: Definition, oracle: (Step, Object) -> StepOutcome, now: int)
    requires AllSucceed(oracle) && Advanceable(e.status)
    ensures var ready := ReadySteps(e.stepsRemaining, e.stepsCompleted, StepMap(d.steps));
      var res := Advance(e, Some(d), oracle, now); var r, f := res.0, res.1;
      f.None? && r.stepsCompleted == e.stepsCompleted + ready
      && multiset(r.stepsRemaining) == multiset(e.stepsRemaining) - multiset(ready)
      && (r.stepsRemaining == [] ==> r.status == Completed)
      && (r.stepsRemaining != [] && ready != [] ==> r.status == StepCompleted)
  {
    var m := StepMap(d.steps);
    var ready := ReadySteps(e.stepsRemaining, e.stepsCompleted, m);
    if ready == [] {
      assert e.stepsCompleted + ready == e.stepsCompleted;
      assert multiset(ready) == multiset{};
    } else {
      ReadyBatchSucceeds(e, m, oracle, now);
    }
  }

  /** Advancing `n` times in a row. */
  function AdvanceTimes(e: Execution, d: Definition, oracle: (Step, Object) -> StepOutcome, now: int, n: nat): Execution
    decreases n
  {
    if n == 0 then e else AdvanceTimes(Advance(e, Some(d), oracle, now).0, d, oracle, now, n - 1)
  }

  lemma {:induction false} CompletedStaysCompleted(e: Execution, d: Definition, oracle: (Step, Object) -> StepOutcome,
                                                   now: int, n: nat)
    requires e.status == Completed
    ensures AdvanceTimes(e, d, oracle, now, n) == e
    decreases n
  {
    if n > 0 {
      CompletedStaysCompleted(e, d, oracle, now, n - 1);
    }
  }

  /** One advance under succeeding steps: the well-formedness facts survive, and the run either completes or shrinks. */
  lemma AdvanceStepFacts(e: Execution, d: Definition, order: seq<string>,
                         oracle: (Step, Object) -> StepOutcome, now: int)
    requires WellFormed(d) && Partitioned(e, d.steps) && CompletedClosed(e, StepMap(d.steps))
    requires TopologicalOrder(d.steps, order) && AllSucceed(oracle) && Advanceable(e.status)
    ensures var r := Advance(e, Some(d), oracle, now).0;
      Partitioned(r, d.steps) && CompletedClosed(r, StepMap(d.steps))
      && (r.status == Completed || (r.status == StepCompleted && 0 < |r.stepsRemaining| < |e.stepsRemaining|))
  {
    var r := Advance(e, Some(d), oracle, now).0;
    assert Advance(e, Some(d), oracle, now).1.None? by {
      AdvanceRunsExactlyReady(e, d, oracle, now);
    }
    assert r.status == Completed <==> r.stepsRemaining == [] by {
      AdvanceCompletedIffEmpty(e, d, oracle, now);
    }
    if e.stepsRemaining != [] {
      assert |r.stepsRemaining| < |e.stepsRemaining| && (r.status == Completed || r.status == StepCompleted) by {
        AdvanceProgress(e, d, order, oracle, now);
      }
    }
    assert Partitioned(r, d.steps) && CompletedClosed(r, StepMap(d.steps)) by {
      AdvanceKeepsPartition(e, d, oracle, now);
    }
  }

  /**
   * An acyclic definition whose steps all succeed is COMPLETED after at most
   * as many advances as it has remaining steps (one, if none remain).
   */
  lemma {:induction false} EventuallyCompleted(e: Execution, d: Definition, order: seq<string>,
                                               oracle: (Step, Object) -> StepOutcome, now: int, n: nat)
    requires WellFormed(d) && Partitioned(e, d.steps) && CompletedClosed(e, StepMap(d.steps))
    requires TopologicalOrder(d.steps, order) && AllSucceed(oracle) && Advanceable(e.status)
    requires n > 0 && n >= |e.stepsRemaining|
    ensures AdvanceTimes(e, d, oracle, now, n).status == Completed
    decreases n
  {
    var r := Advance(e, Some(d), oracle, now).0;
    AdvanceStepFacts(e, d, order, oracle, now);
    if r.status == Completed {
      CompletedStaysCompleted(r, d, oracle, now, n - 1);
    } else {
      EventuallyCompleted(r, d, order, oracle, now, n - 1);
    }
    assert AdvanceTimes(e, d, oracle, now, n) == AdvanceTimes(r, d, oracle, now, n - 1);
  }

  /** In a two-step chain a <- b, only a is ready at first, and b is ready once a is completed. */
  lemma ChainReady(d: Definition)
    requires |d.steps| == 2 && d.steps[0].stepId != d.steps[1].stepId
    requires d.steps[0].dependsOn == [] && d.steps[1].dependsOn == [d.steps[0].stepId]
    ensures var a, b, m := d.steps[0].stepId, d.steps[1].stepId, StepMap(d.steps);
      StepIds(d.steps) == [a, b] && ReadySteps([a, b], [], m) == [a] && ReadySteps([b], [a], m) == [b]
  {
    var a, b := d.steps[0].stepId, d.steps[1].stepId;
    var m := StepMap(d.steps);
    assert StepIds(d.steps) == [a, b];
    assert UniqueStepIds(d.steps);
    StepMapAt(d.steps, 0);
    StepMapAt(d.steps, 1);
    assert !DepsDone(m[b], []) by { assert a in m[b].dependsOn; }
    assert DepsDone(m[b], [a]);
    assert ReadySteps([b], [], m) == [];
    assert [a, b][1..] == [b];
  }

  /** A one-element remaining list is pinned down by its multiset. */
  lemma SingletonByMultiset(s: seq<string>, x: string)
    requires multiset(s) == multiset{x}
    ensures s == [x]
  {
    assert |s| == 1;
    assert s[0] in multiset(s);
  }

  /** One advance of an all-succeeding execution whose ready list is [x] and whose remaining list is longer. */
  lemma AdvanceOneReady(e: Execution, d: Definition, oracle: (Step, Object) -> StepOutcome, now: int,
                        x: string, rest: string)
    requires AllSucceed(oracle) && Advanceable(e.status)
    requires ReadySteps(e.stepsRemaining, e.stepsCompleted, StepMap(d.steps)) == [x]
    requires e.stepsRemaining == [x, rest]
    ensures var r := Advance(e, Some(d), oracle, now).0;
      r.stepsCompleted == e.stepsCompleted + [x] && r.stepsRemaining == [rest] && r.status == StepCompleted
  {
    AdvanceRunsExactlyReady(e, d, oracle, now);
    var r := Advance(e, Some(d), oracle, now).0;
    assert multiset([x, rest]) - multiset([x]) == multiset{rest};
    SingletonByMultiset(r.stepsRemaining, rest);
  }

  /** One advance of an all-succeeding execution whose only remaining id is ready. */
  lemma AdvanceLastReady(e: Execution, d: Definition, oracle: (Step, Object) -> StepOutcome, now: int, x: string)
    requires AllSucceed(oracle) && Advanceable(e.status)
    requires e.stepsRemaining == [x] && ReadySteps([x], e.stepsCompleted, StepMap(d.steps)) == [x]
    ensures var r := Advance(e, Some(d), oracle, now).0;
      r.stepsCompleted == e.stepsCompleted + [x] && r.stepsRemaining == [] && r.status == Completed
  {
    AdvanceRunsExactlyReady(e, d, oracle, now);
    var r := Advance(e, Some(d), oracle, now).0;
    assert multiset(r.stepsRemaining) == multiset{};
  }

  /** A chain a <- b: the first advance of a fresh execution completes a only, the second completes b too. */
  lemma ChainOneLinkPerCall(e: Execution, d: Definition, oracle: (Step, Object) -> StepOutcome, now: int)
    requires |d.steps| == 2 && d.steps[0].stepId != d.steps[1].stepId
    requires d.steps[0].dependsOn == [] && d.steps[1].dependsOn == [d.steps[0].stepId]
    requires e.status == Running && e.stepsCompleted == [] && e.stepsRemaining == StepIds(d.steps)
    requires AllSucceed(oracle)
    ensures var r := Advance(e, Some(d), oracle, now).0;
      r.stepsCompleted == [d.steps[0].stepId] && r.stepsRemaining == [d.steps[1].stepId]
      && r.status == StepCompleted
    ensures var r := Advance(e, Some(d), oracle, now).0;
      var r2 := Advance(r, Some(d), oracle, now).0;
      r2.stepsCompleted == StepIds(d.steps) && r2.stepsRemaining == [] && r2.status == Completed
  {
    var a, b := d.steps[0].stepId, d.steps[1].stepId;
    ChainReady(d);
    AdvanceOneReady(e, d, oracle, now, a, b);
    var r := Advance(e, Some(d), oracle, now).0;
    AdvanceLastReady(r, d, oracle, now, b);
  }

  /** Distinct ids occur at most once. */
  lemma {:induction false} DistinctCount(s: seq<string>, x: string)
    requires Distinct(s)
    ensures multiset(s)[x] <= 1
    decreases |s|
  {
    if s != [] {
      assert s == [s[0]] + s[1..];
      assert Distinct(s[1..]) by {
        forall i, j | 0 <= i < j < |s[1..]| ensures s[1..][i] != s[1..][j] {
          assert s[1..][i] == s[i + 1] && s[1..][j] == s[j + 1];
        }
      }
      DistinctCount(s[1..], x);
      if s[0] == x {
        assert x !in s[1..] by {
          forall k | 0 <= k < |s[1..]| ensures s[1..][k] != x {
            assert s[1..][k] == s[k + 1];
          }
        }
      }
    }
  }

  /** A "stop" failure leaves the failing step, and every step depending on it, not completed. */
  lemma {:induction false} RunBatchStops(e: Execution, ready: seq<string>, stepMap: map<string, Step>,
                                         oracle: (Step, Object) -> StepOutcome, now: int, ids: multiset<string>)
    requires BatchInvariant(e, ready, stepMap, ids)
    requires forall id :: id in stepMap ==> stepMap[id].stepId == id
    ensures var res := RunBatch(e, ready, stepMap, oracle, now);
      res.1.Some? ==> (
        var f := res.1.value;
        res.0.status == Failed && res.0.currentStepId.None?
        && res.0.errorMessage == Some(StopMessage(f.stepId, f.reason)) && res.0.completedAt == Some(now)
        && f.stepId in res.0.stepsRemaining && f.stepId in stepMap && stepMap[f.stepId].onFailure == "stop"
        && oracle(stepMap[f.stepId], res.0.context) == Raised(f.reason))
    decreases |ready|
  {
    if ready != [] {
      assert multiset(ready[1..]) <= multiset(ready) by { assert ready == [ready[0]] + ready[1..]; }
      if ready[0] !in stepMap {
        RunBatchStops(e, ready[1..], stepMap, oracle, now, ids);
      } else {
        var step := stepMap[ready[0]];
        var outcome := oracle(step, e.context);
        var res := RunStep(e, step, outcome, now);
        if res.1.Some? {
          assert RunBatch(e, ready, stepMap, oracle, now) == res;
          assert ready[0] in multiset(e.stepsRemaining);
        } else {
          assert RunBatch(e, ready, stepMap, oracle, now) == RunBatch(res.0, ready[1..], stepMap, oracle, now);
          assert BatchInvariant(res.0, ready[1..], stepMap, ids) by {
            RunStepKeeps(e, ready, stepMap, ids, outcome, now);
          }
          RunBatchStops(res.0, ready[1..], stepMap, oracle, now, ids);
        }
      }
    }
  }

  /**
   * When a step with `on_failure="stop"` raises, the execution is FAILED with
   * the step's message, and the failed step and every step that depends on
   * it stay out of the completed list.
   */
  lemma AdvanceStopFailure(e: Execution, d: Definition, oracle: (Step, Object) -> StepOutcome, now: int)
    requires WellFormed(d) && Partitioned(e, d.steps) && CompletedClosed(e, StepMap(d.steps))
    ensures var res := Advance(e, Some(d), oracle, now);
      res.1.Some? ==> (
        var f := res.1.value;
        var m := StepMap(d.steps);
        res.0.status == Failed && res.0.errorMessage == Some(StopMessage(f.stepId, f.reason))
        && f.stepId in m && m[f.stepId].onFailure == "stop"
        && f.stepId in res.0.stepsRemaining && f.stepId !in res.0.stepsCompleted
        && (forall x :: x in m && f.stepId in m[x].dependsOn ==> x !in res.0.stepsCompleted))
  {
    var m := StepMap(d.steps);
    var ids := multiset(StepIds(d.steps));
    var res := Advance(e, Some(d), oracle, now);
    if res.1.Some? {
      var ready := ReadySteps(e.stepsRemaining, e.stepsCompleted, m);
      ReadyStepsSpec(e.stepsRemaining, e.stepsCompleted, m);
      assert BatchInvariant(e, ready, m, ids);
      RunBatchStops(e, ready, m, oracle, now, ids);
      AdvanceKeepsPartition(e, d, oracle, now);
      var f := res.1.value;
      var r := res.0;
      DistinctCount(StepIds(d.steps), f.stepId);
      assert f.stepId in multiset(r.stepsRemaining);
      assert f.stepId !in multiset(r.stepsCompleted);
      assert forall x :: x in r.stepsCompleted && x in m ==> DepsDone(m[x], r.stepsCompleted);
    }
  }

  /**
   * `on_failure="skip"`: a raising step is recorded as a FAILED result from
   * the engine, moved to completed, and the batch goes on.
   */
  lemma RunStepSkip(e: Execution, step: Step, message: string, now: int)
    requires step.onFailure == "skip"
    ensures var res := RunStep(e, step, Raised(message), now);
      res.1.None? && res.0.status == StepCompleted && res.0.currentStepId.None?
      && res.0.stepsCompleted == e.stepsCompleted + [step.stepId]
      && res.0.stepsRemaining == RemoveFirst(e.stepsRemaining, step.stepId)
      && step.stepId in res.0.stepResults
      && res.0.stepResults[step.stepId].status == Tasks.Failed
      && res.0.stepResults[step.stepId].agentId == ENGINE_AGENT
      && res.0.stepResults[step.stepId].errorMessage == Some(message)
      && res.0.context == e.context
  {
  }

  /**
   * `on_failure="retry"` has no branch. When the raising step is the only
   * ready one, it stays current, the status stays STEP_EXECUTING, and from
   * then on every advance is a no-op.
   */
  lemma RetryStalls(e: Execution, d: Definition, oracle: (Step, Object) -> StepOutcome, now: int, id: string)
    requires Advanceable(e.status)
    requires ReadySteps(e.stepsRemaining, e.stepsCompleted, StepMap(d.steps)) == [id]
    requires id in StepMap(d.steps) && StepMap(d.steps)[id].onFailure == "retry"
    requires oracle(StepMap(d.steps)[id], e.context).Raised?
    ensures var res := Advance(e, Some(d), oracle, now);
      res.1.None? && res.0.status == StepExecuting && res.0.currentStepId == Some(id)
      && res.0.stepsRemaining == e.stepsRemaining && res.0.stepsCompleted == e.stepsCompleted
    ensures var r := Advance(e, Some(d), oracle, now).0;
      forall o: (Step, Object) -> StepOutcome, t: int {:trigger Advance(r, Some(d), o, t)} ::
        Advance(r, Some(d), o, t) == (r, None)
  {
    var m := StepMap(d.steps);
    var res := RunStep(e, m[id], oracle(m[id], e.context), now);
    assert RunBatch(e, [id], m, oracle, now) == RunBatch(res.0, [], m, oracle, now);
  }

  /** A successful result is kept under the step id, and its data enters the context only when non-empty. */
  lemma RunStepSucceededContext(e: Execution, step: Step, result: Tasks.TaskResult, now: int)
    ensures var r := RunStep(e, step, Succeeded(result), now).0;
      r.stepResults == e.stepResults[step.stepId := result]
      && (result.resultData != map[] ==> r.context == e.context[step.stepId := Dict(result.resultData)])
      && (result.resultData == map[] ==> r.context == e.context)
  {
  }

  // ------------------------------------------------------------------
  // Running a step
  // ------------------------------------------------------------------

  /**
   * The default `_execute_step`: an acknowledgment from the target agent (or
   * the engine itself) whose data echoes the step; it is never empty, so it
   * always enters the execution context.
   */
  function AcknowledgeStep(step: Step, startedAt: int, completedAt: int): (r: Tasks.TaskResult)
    ensures r.taskId == step.stepId && r.status == Tasks.Completed && r.errorMessage.None?
    ensures r.resultData.Keys == {"step_id", "step_name", "agent_domain", "parameters", "acknowledged"}
    ensures r.resultData["step_id"] == Str(step.stepId) && r.resultData["acknowledged"] == Bool(true)
    ensures r.resultData["parameters"] == Dict(step.parameters)
    ensures step.targetAgent.Some? && step.targetAgent.value != [] ==> r.agentId == step.targetAgent.value
    ensures step.targetAgent.None? || step.targetAgent.value == [] ==> r.agentId == ENGINE_AGENT
  {
    var agent := if step.targetAgent.Some? && step.targetAgent.value != [] then step.targetAgent.value else ENGINE_AGENT;
    var domain := if step.agentDomain.Some? then Str(DomainValue(step.agentDomain.value)) else Null;
    Tasks.TaskResult(step.stepId, agent, Tasks.Completed,
      map["step_id" := Str(step.stepId), "step_name" := Str(step.name), "agent_domain" := domain,
          "parameters" := Dict(step.parameters), "acknowledged" := Bool(true)],
      None, startedAt, completedAt, (completedAt - startedAt) as real)
  }

  /** The engine without an executor: every step is acknowledged at `now`. */
  function DefaultOracle(now: int): (Step, Object) -> StepOutcome {
    (s: Step, c: Object) => Succeeded(AcknowledgeStep(s, now, now))
  }

  /** Without an executor every step succeeds, so acyclic definitions always run to COMPLETED. */
  lemma DefaultOracleSucceeds(now: int)
    ensures AllSucceed(DefaultOracle(now))
    ensures forall s: Step, c: Object :: DefaultOracle(now)(s, c).result.resultData != map[]
  {
    forall s: Step, c: Object ensures DefaultOracle(now)(s, c).result.resultData != map[] {
      assert "acknowledged" in AcknowledgeStep(s, now, now).resultData;
    }
  }

  /**
   * With an executor, the step becomes a MEDIUM-priority PENDING task named
   * after the execution and step, whose parameters are the step's parameters
   * overlaid by the execution context.
   */
  function StepTask(step: Step, e: Execution, startedAt: int): (t: Tasks.Task)
    ensures t.taskId == e.executionId + "-" + step.stepId
    ensures t.priority == Tasks.Medium && t.status == Tasks.Pending
    ensures t.domain == step.agentDomain && t.targetAgent == step.targetAgent
    ensures t.timeoutSeconds == step.timeoutSeconds
    ensures forall k :: k in t.parameters <==> k in step.parameters || k in e.context
    ensures forall k :: k in e.context ==> t.parameters[k] == e.context[k]
    ensures forall k :: k in step.parameters && k !in e.context ==> t.parameters[k] == step.parameters[k]
  {
    Tasks.Task(e.executionId + "-" + step.stepId, step.name, "Workflow step: " + step.name,
      step.agentDomain, step.targetAgent, Tasks.Medium, Tasks.Pending,
      Merge(step.parameters, e.context), startedAt, step.timeoutSeconds,
      0, Tasks.DEFAULT_TASK_MAX_RETRIES, map[])
  }

  // ------------------------------------------------------------------
  // The engine
  // ------------------------------------------------------------------

  /** What the engine keeps true of each stored execution and its definition. */
  ghost predicate EntryOk(id: string, e: Execution, d: Definition) {
    e.executionId == id && e.workflowId == d.workflowId
    && Partitioned(e, d.steps) && CompletedClosed(e, StepMap(d.steps))
  }

  ghost predicate AllEntriesOk(executions: map<string, Execution>, definitions: map<string, Definition>) {
    forall id :: id in executions && id in definitions ==> EntryOk(id, executions[id], definitions[id])
  }

  /** Storing a record that keeps the entry facts keeps them for the whole map. */
  lemma StoreEntry(executions: map<string, Execution>, definitions: map<string, Definition>, id: string, e: Execution)
    requires AllEntriesOk(executions, definitions)
    requires id in definitions && EntryOk(id, e, definitions[id])
    ensures AllEntriesOk(executions[id := e], definitions)
  {
  }

  /** The batch loop of `advance_workflow`, run over the ready ids in order. */
  method RunReady(e: Execution, ready: seq<string>, stepMap: map<string, Step>,
                  oracle: (Step, Object) -> StepOutcome, now: int)
    returns (r: Execution, failure: Option<StepFailure>)
    requires forall id :: id in stepMap ==> stepMap[id].stepId == id
    ensures (r, failure) == RunBatch(e, ready, stepMap, oracle, now)
  {
    r, failure := e, None;
    var i := 0;
    while i < |ready|
      invariant 0 <= i <= |ready|
      invariant RunBatch(e, ready, stepMap, oracle, now) == RunBatch(r, ready[i..], stepMap, oracle, now)
      invariant failure.None?
    {
      var sid := ready[i];
      assert ready[i..][1..] == ready[i + 1..];
      if sid in stepMap {
        var step := stepMap[sid];
        var outcome := oracle(step, r.context);
        ghost var expected := RunStep(r, step, outcome, now);
        r := r.(currentStepId := Some(sid), status := StepExecuting);
        match outcome
        case Succeeded(result) =>
          r := r.(stepResults := r.stepResults[sid := result],
                  stepsCompleted := r.stepsCompleted + [sid],
                  stepsRemaining := RemoveFirst(r.stepsRemaining, sid),
                  currentStepId := None, status := StepCompleted);
          if result.resultData != map[] {
            r := r.(context := r.context[sid := Dict(result.resultData)]);
          }
        case Raised(message) =>
          if step.onFailure == "stop" {
            r := r.(status := Failed, errorMessage := Some(StopMessage(sid, message)),
                    completedAt := Some(now), currentStepId := None);
            failure := Some(StepFailure(sid, message));
            assert (r, failure) == expected;
            return;
          } else if step.onFailure == "skip" {
            r := r.(stepResults := r.stepResults[sid := SkippedResult(sid, message, now)],
                    stepsCompleted := r.stepsCompleted + [sid],
                    stepsRemaining := RemoveFirst(r.stepsRemaining, sid),
                    currentStepId := None, status := StepCompleted);
          }
        assert (r, failure) == expected;
      }
      i := i + 1;
    }
  }

  /** The stored-record facts survive an advance. */
  lemma AdvanceEntryOk(id: string, e: Execution, d: Definition, oracle: (Step, Object) -> StepOutcome, now: int)
    requires EntryOk(id, e, d)
    ensures EntryOk(id, Advance(e, Some(d), oracle, now).0, d)
  {
    AdvanceKeepsPartition(e, d, oracle, now);
  }

  /**
   * The body of `advance_workflow` on the execution record: the status
   * guard, the missing-definition failure, the ready batch and the final
   * COMPLETED check.
   */
  method AdvanceRecord(e: Execution, def: Option<Definition>, oracle: (Step, Object) -> StepOutcome, now: int)
    returns (r: Execution, failure: Option<StepFailure>)
    ensures (r, failure) == Advance(e, def, oracle, now)
  {
    if !(e.status == Running || e.status == StepCompleted) {
      return e, None;
    }
    if def.None? {
      r := e.(status := Failed, errorMessage := Some("Workflow definition not found for execution"),
              completedAt := Some(now));
      return r, None;
    }
    var stepMap := StepMap(def.value.steps);
    var ready := ReadySteps(e.stepsRemaining, e.stepsCompleted, stepMap);
    if ready == [] {
      r := e;
      if r.stepsRemaining == [] {
        r := r.(status := Completed, completedAt := Some(now));
      }
      return r, None;
    }
    r, failure := RunReady(e, ready, stepMap, oracle, now);
    if failure.None? && r.stepsRemaining == [] {
      r := r.(status := Completed, completedAt := Some(now));
    }
  }

  /**
   * Listing the executions under every stored id, each id once, and keeping
   * those with the requested status lists exactly the stored executions with
   * that status.
   */
  lemma WithStatusMembers(executions: map<string, Execution>, ids: seq<string>, status: Option<WorkflowStatus>)
    requires forall id :: id in ids <==> id in executions
    ensures forall i :: 0 <= i < |ids| ==> ids[i] in executions
    ensures status.None? ==> |WithStatus(ValuesAt(executions, ids), status)| == |ids|
    ensures var r := WithStatus(ValuesAt(executions, ids), status);
      forall x :: x in r <==> exists id :: id in executions && executions[id] == x && (status.None? || x.status == status.value)
  {
    var xs := ValuesAt(executions, ids);
    forall x | x in xs ensures exists id :: id in executions && executions[id] == x {
      var i :| 0 <= i < |xs| && xs[i] == x;
      assert ids[i] in executions;
    }
    forall id | id in executions ensures executions[id] in xs {
      var i :| 0 <= i < |ids| && ids[i] == id;
      assert xs[i] == executions[id];
    }
  }

  /** `[e for e in executions if e.status == status]` when a status is given, else every execution. */
  function WithStatus(xs: seq<Execution>, status: Option<WorkflowStatus>): seq<Execution> {
    if status.Some? then Where(xs, HasStatus(status.value)) else xs
  }

  /** `e.status == status` as a filter. */
  function HasStatus(status: WorkflowStatus): Execution -> bool {
    (x: Execution) => x.status == status
  }

  /** `WorkflowEngine`: executions and their definitions, both keyed by execution id. */
  class WorkflowEngine {
    var executions: map<string, Execution>
    var definitions: map<string, Definition>
    /** Insertion order of the execution ids (the order of `_executions`). */
    var executionOrder: seq<string>

    ghost predicate Valid()
      reads this
    {
      (forall id :: id in executions <==> id in definitions)
      && Distinct(executionOrder)
      && (forall id :: id in executionOrder <==> id in executions)
      && AllEntriesOk(executions, definitions)
    }

    constructor()
      ensures Valid()
      ensures executions == map[] && definitions == map[] && executionOrder == []
    {
      executions := map[];
      definitions := map[];
      executionOrder := [];
    }

    /**
     * `start_workflow`: a RUNNING execution whose remaining steps are the
     * definition's step ids in order; `executionId` stands for the fresh uuid.
     */
    method StartWorkflow(d: Definition, context: Option<Object>, executionId: string, now: int)
      returns (e: Execution)
      requires Valid() && WellFormed(d)
      requires executionId !in executions
      modifies this
      ensures Valid()
      ensures e.executionId == executionId && e.workflowId == d.workflowId && e.status == Running
      ensures e.stepsRemaining == StepIds(d.steps) && e.stepsCompleted == [] && e.stepResults == map[]
      ensures e.currentStepId.None? && e.startedAt == Some(now) && e.completedAt.None? && e.errorMessage.None?
      ensures e.context == (if context.Some? then context.value else map[]) && e.metadata == map[]
      ensures executions == old(executions)[executionId := e]
      ensures definitions == old(definitions)[executionId := d]
      ensures executionOrder == old(executionOrder) + [executionId]
    {
      var ctx := if context.Some? then context.value else map[];
      e := Execution(executionId, d.workflowId, Running, None, [], StepIds(d.steps), map[], ctx,
                     Some(now), None, None, map[]);
      executions := executions[executionId := e];
      definitions := definitions[executionId := d];
      executionOrder := executionOrder + [executionId];
      assert multiset(e.stepsCompleted) == multiset{};
      assert EntryOk(executionId, e, d);
    }

    /** `get_ready_steps`: nothing without a registered definition. */
    function GetReadySteps(e: Execution): (r: seq<string>)
      reads this
      ensures e.executionId !in definitions ==> r == []
      ensures e.executionId in definitions ==>
        var m := StepMap(definitions[e.executionId].steps);
        forall id :: id in r <==> id in e.stepsRemaining && id in m && DepsDone(m[id], e.stepsCompleted)
      ensures Subsequence(r, e.stepsRemaining)
    {
      if e.executionId !in definitions then []
      else
        var m := StepMap(definitions[e.executionId].steps);
        ReadyStepsSpec(e.stepsRemaining, e.stepsCompleted, m);
        ReadySteps(e.stepsRemaining, e.stepsCompleted, m)
    }

    /**
     * `advance_workflow`: runs the ready batch. `oracle` stands for step
     * execution; a "stop" failure is returned as `failure` (the raised
     * `WorkflowStepFailedError`) after the FAILED execution is stored. The
     * argument is the engine's own record, which Python updates in place.
     */
    method AdvanceWorkflow(e: Execution, oracle: (Step, Object) -> StepOutcome, now: int)
      returns (r: Execution, failure: Option<StepFailure>)
      requires Valid()
      requires e.executionId in executions ==> executions[e.executionId] == e
      modifies this
      ensures Valid()
      ensures (r, failure) == Advance(e, if e.executionId in old(definitions)
                                         then Some(old(definitions)[e.executionId]) else None, oracle, now)
      ensures definitions == old(definitions) && executionOrder == old(executionOrder)
      ensures executions == if e.executionId in old(definitions)
                            then old(executions)[e.executionId := r] else old(executions)
    {
      var id := e.executionId;
      var def := if id in definitions then Some(definitions[id]) else None;
      r, failure := AdvanceRecord(e, def, oracle, now);
      if id in definitions {
        // the stored record is the one advanced, updated in place
        assert EntryOk(id, e, definitions[id]);
        AdvanceEntryOk(id, e, definitions[id], oracle, now);
        assert EntryOk(id, r, definitions[id]);
        StoreEntry(executions, definitions, id, r);
        executions := executions[id := r];
        assert AllEntriesOk(executions, definitions);
        assert Valid();
      }
    }

    /** `cancel_workflow`: any known execution becomes CANCELLED; an unknown id is a KeyError. */
    method CancelWorkflow(executionId: string, now: int) returns (r: Result<Execution, string>)
      requires Valid()
      modifies this
      ensures Valid()
      ensures executionId !in old(executions) ==>
        r == Err("Execution '" + executionId + "' not found") && executions == old(executions)
      ensures executionId in old(executions) ==>
        r == Ok(old(executions)[executionId].(status := Cancelled, completedAt := Some(now), currentStepId := None))
        && executions == old(executions)[executionId := r.value]
      ensures definitions == old(definitions) && executionOrder == old(executionOrder)
    {
      if executionId !in executions {
        return Err("Execution '" + executionId + "' not found");
      }
      var e := executions[executionId].(status := Cancelled, completedAt := Some(now), currentStepId := None);
      assert EntryOk(executionId, executions[executionId], definitions[executionId]);
      executions := executions[executionId := e];
      r := Ok(e);
    }

    /** `get_execution` */
    function GetExecution(executionId: string): (r: Option<Execution>)
      reads this
      ensures r.Some? <==> executionId in executions
      ensures r.Some? ==> r.value == executions[executionId]
    {
      if executionId in executions then Some(executions[executionId]) else None
    }

    /** The executions under `ids`, in that order, keeping those with the requested status. */
    function Collect(ids: seq<string>, status: Option<WorkflowStatus>): (r: seq<Execution>)
      reads this
      requires forall i :: 0 <= i < |ids| ==> ids[i] in executions
      ensures r == WithStatus(ValuesAt(executions, ids), status)
      decreases |ids|
    {
      if ids == [] then []
      else
        var x := executions[ids[0]];
        var rest := Collect(ids[1..], status);
        ValuesAtCons(executions, ids);
        if status.Some? then
          WherePrepend(x, ValuesAt(executions, ids[1..]), HasStatus(status.value));
          (if x.status == status.value then [x] else []) + rest
        else
          [x] + rest
    }

    /**
     * `list_executions`: every stored execution (filtered by status when one
     * is given) in insertion order. It needs only the part of `Valid()` that
     * ties the insertion order to the stored ids.
     */
    function ListExecutions(status: Option<WorkflowStatus>): (r: seq<Execution>)
      reads this
      requires forall id :: id in executionOrder <==> id in executions
      ensures forall x :: x in r <==>
        (exists id :: id in executions && executions[id] == x && (status.None? || x.status == status.value))
      ensures status.None? ==> |r| == |executionOrder|
      ensures r == WithStatus(ValuesAt(executions, executionOrder), status)
    {
      WithStatusMembers(executions, executionOrder, status);
      Collect(executionOrder, status)
    }
  }
}
