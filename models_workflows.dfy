/**
 * Workflow definitions (ordered steps with dependencies), their validators,
 * and the execution record the engine advances.
 */
module Workflows {
  import opened Common
  import opened Json
  import opened Agents
  import Tasks

  datatype StepType = TaskStep | Conditional | Parallel

  /** Lifecycle of an execution. PAUSED is declared but nothing in the engine sets it. */
  datatype WorkflowStatus = Pending | Running | StepExecuting | StepCompleted | Paused | Failed | Completed | Cancelled

  datatype Step = Step(
    stepId: string,
    name: string,
    stepType: StepType,
    agentDomain: Option<Domain>,
    targetAgent: Option<string>,
    parameters: Object,
    dependsOn: seq<string>,
    timeoutSeconds: real,
    onFailure: string,
    maxRetries: int)

  /** The accepted `on_failure` policies. */
  const ON_FAILURE_POLICIES: set<string> := {"stop", "skip", "retry"}
  const DEFAULT_ON_FAILURE: string := "stop"
  const DEFAULT_STEP_TIMEOUT: real := 300.0
  const DEFAULT_STEP_MAX_RETRIES: int := 2

  /**
   * Constructing a `WorkflowStep`: step_id must not be blank (it is stored
   * unstripped), on_failure must be a known policy, and the timeout positive.
   */
  function NewStep(stepId: string, name: string, stepType: StepType, agentDomain: Option<Domain>,
                   targetAgent: Option<string>, parameters: Object, dependsOn: seq<string>,
                   timeoutSeconds: real, onFailure: string, maxRetries: int)
    : (r: Result<Step, seq<string>>)
    ensures r.Ok? <==> !IsBlank(stepId) && onFailure in ON_FAILURE_POLICIES && timeoutSeconds > 0.0
    ensures r.Ok? ==> r.value == Step(stepId, name, stepType, agentDomain, targetAgent, parameters,
                                      dependsOn, timeoutSeconds, onFailure, maxRetries)
  {
    var errors :=
      (if IsBlank(stepId) then ["step_id must not be empty"] else []) +
      (if onFailure !in ON_FAILURE_POLICIES then ["on_failure must be one of stop, skip, retry"] else []) +
      (if timeoutSeconds <= 0.0 then ["timeout_seconds must be positive"] else []);
    if errors == [] then
      Ok(Step(stepId, name, stepType, agentDomain, targetAgent, parameters, dependsOn,
              timeoutSeconds, onFailure, maxRetries))
    else Err(errors)
  }

  /** `WorkflowStep(step_id=..., name=..., depends_on=...)` with every other field defaulted. */
  function DefaultStep(stepId: string, name: string, dependsOn: seq<string>): Result<Step, seq<string>> {
    NewStep(stepId, name, TaskStep, None, None, map[], dependsOn,
            DEFAULT_STEP_TIMEOUT, DEFAULT_ON_FAILURE, DEFAULT_STEP_MAX_RETRIES)
  }

  /** A defaulted step stops on failure, times out after 300 s and allows 2 retries; only a blank id fails. */
  lemma DefaultStepFields(stepId: string, name: string, dependsOn: seq<string>)
    ensures DefaultStep(stepId, name, dependsOn).Ok? <==> !IsBlank(stepId)
    ensures var r := DefaultStep(stepId, name, dependsOn);
      r.Ok? ==> (r.value.onFailure == "stop" && r.value.timeoutSeconds == 300.0 && r.value.maxRetries == 2
                 && r.value.stepType == TaskStep && r.value.stepId == stepId)
  {
  }

  /** Exactly "stop", "skip" and "retry" pass; the check is case-sensitive. */
  lemma OnFailureChoices(stepId: string)
    requires !IsBlank(stepId)
    ensures NewStep(stepId, "n", TaskStep, None, None, map[], [], 1.0, "stop", 0).Ok?
    ensures NewStep(stepId, "n", TaskStep, None, None, map[], [], 1.0, "skip", 0).Ok?
    ensures NewStep(stepId, "n", TaskStep, None, None, map[], [], 1.0, "retry", 0).Ok?
    ensures NewStep(stepId, "n", TaskStep, None, None, map[], [], 1.0, "STOP", 0).Err?
    ensures NewStep(stepId, "n", TaskStep, None, None, map[], [], 1.0, "abort", 0).Err?
  {
    assert "STOP" !in ON_FAILURE_POLICIES by {
      assert "STOP"[0] != "stop"[0] && "STOP"[0] != "skip"[0] && |"STOP"| != |"retry"|;
    }
    assert "abort" !in ON_FAILURE_POLICIES by {
      assert "abort"[0] != "retry"[0] && |"abort"| != |"stop"| && |"abort"| != |"skip"|;
    }
  }

  // ------------------------------------------------------------------
  // Definitions and `validate_step_references`
  // ------------------------------------------------------------------

  datatype Definition = Definition(
    workflowId: string,
    name: string,
    description: string,
    version: string,
    steps: seq<Step>,
    createdAt: int,
    metadata: Object)

  function StepIds(steps: seq<Step>): (r: seq<string>)
    ensures |r| == |steps| && forall i :: 0 <= i < |steps| ==> r[i] == steps[i].stepId
  {
    seq(|steps|, i requires 0 <= i < |steps| => steps[i].stepId)
  }

  predicate UniqueStepIds(steps: seq<Step>) {
    Distinct(StepIds(steps))
  }

  /** Every `depends_on` entry names a step of the same definition. */
  predicate DependenciesKnown(steps: seq<Step>) {
    forall i, d :: 0 <= i < |steps| && d in steps[i].dependsOn ==> d in StepIds(steps)
  }

  /** No step lists itself in `depends_on`. Longer cycles are not looked for. */
  predicate NoSelfDependency(steps: seq<Step>) {
    forall i :: 0 <= i < |steps| ==> steps[i].stepId !in steps[i].dependsOn
  }

  /** The duplicate scan: every id that was already seen, in order of its repeat. */
  function DuplicatesFrom(ids: seq<string>, seen: set<string>): seq<string>
    decreases |ids|
  {
    if ids == [] then []
    else (if ids[0] in seen then [ids[0]] else []) + DuplicatesFrom(ids[1..], seen + {ids[0]})
  }

  lemma {:induction false} DuplicatesFromEmpty(ids: seq<string>, seen: set<string>)
    ensures DuplicatesFrom(ids, seen) == [] <==> Distinct(ids) && forall i :: 0 <= i < |ids| ==> ids[i] !in seen
    decreases |ids|
  {
    if ids != [] {
      DuplicatesFromEmpty(ids[1..], seen + {ids[0]});
      assert forall i :: 1 <= i < |ids| ==> ids[i] == ids[1..][i - 1];
      if Distinct(ids) && forall i :: 0 <= i < |ids| ==> ids[i] !in seen {
        forall i | 0 <= i < |ids| - 1 ensures ids[1..][i] !in seen + {ids[0]} {
          assert ids[1..][i] == ids[i + 1];
        }
      }
    }
  }

  /** The dependency scan of one step: its first unknown or self-referencing entry. */
  function BadDependency(stepId: string, deps: seq<string>, valid: set<string>): Option<string>
    decreases |deps|
  {
    if deps == [] then None
    else if deps[0] !in valid then
      Some("Step '" + stepId + "' depends on '" + deps[0] + "', which is not a valid step ID in this workflow.")
    else if deps[0] == stepId then
      Some("Step '" + stepId + "' depends on itself (circular dependency)")
    else BadDependency(stepId, deps[1..], valid)
  }

  lemma {:induction false} BadDependencyNone(stepId: string, deps: seq<string>, valid: set<string>)
    ensures BadDependency(stepId, deps, valid).None? <==> forall d :: d in deps ==> d in valid && d != stepId
    decreases |deps|
  {
    if deps != [] {
      BadDependencyNone(stepId, deps[1..], valid);
      assert forall d :: d in deps <==> d == deps[0] || d in deps[1..];
    }
  }

  /** The scan over all steps, in order. */
  function BadReference(steps: seq<Step>, valid: set<string>): Option<string>
    decreases |steps|
  {
    if steps == [] then None
    else
      var e := BadDependency(steps[0].stepId, steps[0].dependsOn, valid);
      if e.Some? then e else BadReference(steps[1..], valid)
  }

  lemma {:induction false} BadReferenceNone(steps: seq<Step>, valid: set<string>)
    ensures BadReference(steps, valid).None? <==>
      forall i, d :: 0 <= i < |steps| && d in steps[i].dependsOn ==> d in valid && d != steps[i].stepId
    decreases |steps|
  {
    if steps != [] {
      var tail := steps[1..];
      BadDependencyNone(steps[0].stepId, steps[0].dependsOn, valid);
      BadReferenceNone(tail, valid);
      if BadReference(steps, valid).None? {
        forall i, d | 0 <= i < |steps| && d in steps[i].dependsOn
          ensures d in valid && d != steps[i].stepId
        {
          if i > 0 { assert steps[i] == tail[i - 1]; }
        }
      }
      if forall i, d :: 0 <= i < |steps| && d in steps[i].dependsOn ==> d in valid && d != steps[i].stepId {
        forall i, d | 0 <= i < |tail| && d in tail[i].dependsOn
          ensures d in valid && d != tail[i].stepId
        {
          assert tail[i] == steps[i + 1];
        }
      }
    }
  }

  /** `set(step_ids)` */
  function IdSet(steps: seq<Step>): (r: set<string>)
    ensures forall d :: d in r <==> d in StepIds(steps)
  {
    var ids := StepIds(steps);
    set i | 0 <= i < |ids| :: ids[i]
  }

  /** `validate_step_references`: duplicates are reported first, then the first bad dependency. */
  function ReferenceError(steps: seq<Step>): Option<string> {
    if DuplicatesFrom(StepIds(steps), {}) != [] then Some("Duplicate step_ids found")
    else BadReference(steps, IdSet(steps))
  }

  /** The reference check passes exactly for unique ids, known dependencies and no self-dependency. */
  lemma ReferenceErrorNone(steps: seq<Step>)
    ensures ReferenceError(steps).None? <==>
      UniqueStepIds(steps) && DependenciesKnown(steps) && NoSelfDependency(steps)
  {
    var ids := StepIds(steps);
    var valid := IdSet(steps);
    DuplicatesFromEmpty(ids, {});
    BadReferenceNone(steps, valid);
    if DependenciesKnown(steps) && NoSelfDependency(steps) {
      forall i, d | 0 <= i < |steps| && d in steps[i].dependsOn
        ensures d in valid && d != steps[i].stepId
      {
      }
    }
    if ReferenceError(steps).None? {
      assert DuplicatesFrom(ids, {}) == [];
      assert BadReference(steps, valid).None?;
      forall i | 0 <= i < |steps| ensures steps[i].stepId !in steps[i].dependsOn {
        assert StepIds(steps)[i] == steps[i].stepId;
        assert steps[i].stepId in valid;
      }
    }
  }

  /**
   * Constructing a `WorkflowDefinition`: workflow_id not blank and at least one
   * step (field checks, reported together), then the reference check.
   */
  function NewDefinition(workflowId: string, name: string, description: string, version: string,
                         steps: seq<Step>, createdAt: int, metadata: Object)
    : (r: Result<Definition, seq<string>>)
    ensures r.Ok? <==> (!IsBlank(workflowId) && |steps| > 0
      && UniqueStepIds(steps) && DependenciesKnown(steps) && NoSelfDependency(steps))
    ensures r.Ok? ==> r.value == Definition(workflowId, name, description, version, steps, createdAt, metadata)
  {
    ReferenceErrorNone(steps);
    var fieldErrors :=
      (if IsBlank(workflowId) then ["workflow_id must not be empty"] else []) +
      (if |steps| == 0 then ["Workflow must have at least one step"] else []);
    if fieldErrors != [] then Err(fieldErrors)
    else
      var e := ReferenceError(steps);
      if e.Some? then Err([e.value])
      else Ok(Definition(workflowId, name, description, version, steps, createdAt, metadata))
  }

  /** Only direct self-dependency is rejected: a two-step cycle a -> b -> a validates. */
  lemma TwoStepCycleAccepted(workflowId: string, a: Step, b: Step)
    requires !IsBlank(workflowId) && a.stepId != b.stepId
    requires a.dependsOn == [b.stepId] && b.dependsOn == [a.stepId]
    ensures NewDefinition(workflowId, "n", "d", "1.0.0", [a, b], 0, map[]).Ok?
    ensures NewDefinition(workflowId, "n", "d", "1.0.0", [a.(dependsOn := [a.stepId]), b], 0, map[]).Err?
  {
    var steps := [a, b];
    assert UniqueStepIds(steps) && DependenciesKnown(steps) && NoSelfDependency(steps) by {
      assert StepIds(steps) == [a.stepId, b.stepId];
    }
    var bad := [a.(dependsOn := [a.stepId]), b];
    assert !NoSelfDependency(bad) by {
      assert bad[0].stepId in bad[0].dependsOn;
    }
  }

  // ------------------------------------------------------------------
  // Executions
  // ------------------------------------------------------------------

  datatype Execution = Execution(
    executionId: string,
    workflowId: string,
    status: WorkflowStatus,
    currentStepId: Option<string>,
    stepsCompleted: seq<string>,
    stepsRemaining: seq<string>,
    stepResults: map<string, Tasks.TaskResult>,
    context: Object,
    startedAt: Option<int>,
    completedAt: Option<int>,
    errorMessage: Option<string>,
    metadata: Object)

  /**
   * `WorkflowExecution(execution_id=..., workflow_id=...)`: both ids must not be
   * blank; everything else starts PENDING and empty.
   */
  function NewExecution(executionId: string, workflowId: string): (r: Result<Execution, seq<string>>)
    ensures r.Ok? <==> !IsBlank(executionId) && !IsBlank(workflowId)
    ensures r.Ok? ==> (r.value.executionId == executionId && r.value.workflowId == workflowId
      && r.value.status == Pending && r.value.currentStepId.None?
      && r.value.stepsCompleted == [] && r.value.stepsRemaining == []
      && r.value.stepResults == map[] && r.value.context == map[]
      && r.value.startedAt.None? && r.value.completedAt.None? && r.value.errorMessage.None?
      && r.value.metadata == map[])
  {
    var errors :=
      (if IsBlank(executionId) then ["execution_id must not be empty"] else []) +
      (if IsBlank(workflowId) then ["workflow_id must not be empty"] else []);
    if errors == [] then
      Ok(Execution(executionId, workflowId, Pending, None, [], [], map[], map[], None, None, None, map[]))
    else Err(errors)
  }
}
