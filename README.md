# itom-orchestrator core, modelled in Dafny

The ITOM orchestrator routes IT-operations tasks to a set of agents (CMDB,
discovery, asset, service catalogue, audit and documentation agents), runs
multi-step workflows over them, and keeps the bookkeeping around that work:
an agent registry, health checks, inter-agent messages, an event bus, an
audit trail, role-based permissions, and JSON file stores for state and
workflow checkpoints. This project models that bookkeeping and decision
logic, which is sequential and in-memory, and proves what each operation
promises.

One Dafny module stands for each source component, in a file of the same name:

- `models_*.dfy`: the records and their field validators (agents, tasks, messages, workflows).
- `engine.dfy`: the workflow engine: start, ready steps, advance with `on_failure`, cancel.
- `templates.dfy`: the template registry and instantiation.
- `checkpoint.dfy`, `persistence.dfy`, `files.dfy`: the two JSON file stores. A directory is a map from file name to content, and each save is one atomic replacement.
- `executor.dfy`: the retry loop, the timeout rule, backoff and the bounded history.
- `router.dfy`, `registry.dfy`: rule, domain and capability routing over the id-sorted registry.
- `health.dfy`: checks, the TTL cache and the two-level bounded history.
- `messaging.dfy`, `events.dfy`, `audit.dfy`: the priority queues, publish/subscribe and the audit log.
- `roles.dfy`, `routing_config.dfy`, `agent_config.dfy`: the permission decision, the configuration checks and the agent configuration loader with its reload diff.
- `dispatch.dfy`, `words.dfy`: the CMDB dispatch parsers and its tool-selection chain.
- `redact.dfy`: log redaction.
- `common.dfy`, `json.dfy`: shared string, list and JSON-value helpers.

Components that update state in place are classes with `modifies` clauses.
Each is proved against specification functions whose properties are proved
as lemmas. Validators and decision procedures are functions that return a
`Result` or `Option` for the error path.

Time, generated ids and outside outcomes are parameters:

- Clocks are integer instants.
- A uuid becomes a caller-supplied fresh id.
- A step's outcome is an oracle.
- A dispatch handler's behaviour is a map.
- A health check's time is a clock argument.

## Model

| member | source | states |
|---|---|---|
| Common.Strip | src/itom_orchestrator/agent_config.py:69 | the result neither starts nor ends with whitespace, and occurs in the string where only whitespace comes before and after it: only the surrounding whitespace is removed |
| Common.BlankIffAllSpace | src/itom_orchestrator/agent_config.py:68 | `not v.strip()` holds exactly when every character is whitespace |
| Common.StripIdempotent | src/itom_orchestrator/agent_config.py:69 | a stripped string is its own strip |
| Common.StripNonBlank | src/itom_orchestrator/agent_config.py:64-76 | the validator accepts exactly the non-blank values and stores them stripped and non-empty |
| Common.LowerChar | src/itom_orchestrator/logging_config.py:89 | an ASCII capital becomes its small letter; every other character stays |
| Common.Lower | src/itom_orchestrator/logging_config.py:89 | every character lower-cased in place |
| Common.ContainsIff | src/itom_orchestrator/agent_dispatch.py:773 | `p in s` holds exactly when `p` occurs somewhere in `s` |
| Common.KeepNewest | src/itom_orchestrator/audit_trail.py:77-78 | the trim keeps a suffix: everything when within the bound, else exactly the newest `max` items |
| Common.KeepNewestAppend | src/itom_orchestrator/audit_trail.py:76-78 | appending to a bounded history stays within the bound and keeps the new item last, after the newest earlier ones |
| Common.KeepNewestAbsorbs | src/itom_orchestrator/executor.py:246-251 | trimming after every append keeps the same items as trimming once at the end |
| Common.PyTail | src/itom_orchestrator/audit_trail.py:122 | the slice is a suffix of the items |
| Common.PyTailLength | src/itom_orchestrator/audit_trail.py:122 | its size for a positive, zero and negative limit |
| Common.Reverse | src/itom_orchestrator/audit_trail.py:123 | the items in reverse order |
| Common.NewestFirstSpec | src/itom_orchestrator/audit_trail.py:122-123 | the slice newest first: as many items as the slice keeps, the very newest at index 0 |
| Common.NewestFirstZeroLimit | src/itom_orchestrator/audit_trail.py:122-123 | limit 0 returns every item, newest first |
| Common.Where | src/itom_orchestrator/audit_trail.py:115-120 | a comprehension keeps exactly the items that pass |
| Common.WhereAppend | src/itom_orchestrator/audit_trail.py:115-120 | it keeps the order of its input |
| Common.WhereWhere | src/itom_orchestrator/audit_trail.py:115-120 | two filters in a row are one filter by both conditions |
| Common.WherePrepend | src/itom_orchestrator/workflow_engine.py:404-406 | a passing first item is the first of the result |
| Common.Repeated | src/itom_orchestrator/role_enforcer.py:362-367 | the seen-set loop reports at most one item per input |
| Common.RepeatedIff | src/itom_orchestrator/role_enforcer.py:362-367 | every repeated item is reported and nothing else; nothing is reported exactly when all items differ |
| Common.SortedKeys | src/itom_orchestrator/persistence.py:286 | `sorted(keys)`: strictly ascending, exactly the given keys |
| Common.ScanMatchCorrect | src/itom_orchestrator/persistence.py:29-85 | the character scan accepts exactly what `^[F][R]*$` matches, one final newline included |
| Json.Merge | src/itom_orchestrator/registry.py:676 | `{**base, **override}`: every key of both, the override's values winning |
| Words.TakeWhile | src/itom_orchestrator/agent_dispatch.py:86 | the longest prefix of characters of the class |
| Words.Tokens | src/itom_orchestrator/agent_dispatch.py:86 | every token is a non-empty run of the class |
| Words.Split | src/itom_orchestrator/agent_dispatch.py:121 | `s.split()`: non-empty words without whitespace |
| Words.SplitOn | src/itom_orchestrator/agent_dispatch.py:193 | `s.split(sep)`: at least one piece, none holding the separator |
| Words.TokensWhole | src/itom_orchestrator/agent_dispatch.py:81-86 | every token is a maximal run of the string |
| Words.TokensJoin | src/itom_orchestrator/agent_dispatch.py:86 | runs joined by a separator outside the class are found again, in order |
| Words.SplitJoin | src/itom_orchestrator/agent_dispatch.py:121-123 | words joined by single spaces split back into the same words |
| Words.StripJoinedWords | src/itom_orchestrator/agent_dispatch.py:123 | words joined by spaces need no stripping |
| Words.SplitOnJoin | src/itom_orchestrator/agent_dispatch.py:193 | separator-free pieces joined and split again come back |
| Words.JoinSplitOn | src/itom_orchestrator/agent_dispatch.py:193 | splitting and joining again gives the string back |
| Redaction.Redact | src/itom_orchestrator/logging_config.py:85-95 | the redacted object has the same keys |
| Redaction.RedactClean | src/itom_orchestrator/logging_config.py:38-95 | no sensitive key keeps its value, at any depth reached through objects |
| Redaction.RedactCleanUnchanged | src/itom_orchestrator/logging_config.py:85-95 | data without secrets comes back unchanged |
| Redaction.RedactIdempotent | src/itom_orchestrator/logging_config.py:85-95 | redacting twice is redacting once |
| Redaction.RedactIgnoresCase | src/itom_orchestrator/logging_config.py:89 | the key check ignores case |
| Redaction.RedactSkipsLists | src/itom_orchestrator/logging_config.py:91-94 | an object inside a list is not descended into |
| Redaction.RedactNested | src/itom_orchestrator/logging_config.py:91-92 | a nested object is redacted, its other entries kept |
| Agents.EnumerationsComplete | src/itom_orchestrator/models/agents.py:17-42 | there are exactly seven domains and four statuses, each listed once, with distinct string values |
| Agents.NewCapability | src/itom_orchestrator/models/agents.py:45-83 | a capability is accepted iff its name and description are not blank; both are stored stripped; on rejection one error per blank field |
| Agents.AgentIdError | src/itom_orchestrator/models/agents.py:121-136 | the agent_id validator rejects exactly the ids outside `^[a-z][a-z0-9-]*$` (with `$` admitting one trailing newline) |
| Agents.AgentIdGrammarExamples | src/itom_orchestrator/models/agents.py:121-136 | "cmdb-agent" and "cmdb-agent\n" are valid ids; "Cmdb", "1abc", "a_b", "" and "a\n\n" are not |
| Agents.NewAgent | src/itom_orchestrator/models/agents.py:89-154 | a registration is accepted iff the id follows the grammar and name and description are not blank; the id is kept as given, name and description stripped, every other field, registered_at and last_health_check included, as given; the whole record is stated |
| Tasks.NewTask | src/itom_orchestrator/models/tasks.py:50-110 | a task is accepted iff task_id is not blank, the timeout is positive and retry_count <= max_retries; the whole task is stated, every field stored as given |
| Tasks.DefaultTaskFields | src/itom_orchestrator/models/tasks.py:77-84 | a task built from id, title and description defaults to MEDIUM, PENDING, a 300 s timeout, 0 of at most 3 retries, no domain or target and empty parameters, and only a blank id is rejected |
| Tasks.RetryBoundInclusive | src/itom_orchestrator/models/tasks.py:102-110 | retry_count equal to max_retries is accepted; one more is rejected with the retry-bound error alone |
| Tasks.NewTaskResult | src/itom_orchestrator/models/tasks.py:113-156 | a result is accepted iff its status is terminal (COMPLETED, FAILED, TIMED_OUT) and its duration is not negative |
| Tasks.ResultStatusRule | src/itom_orchestrator/models/tasks.py:139-148 | PENDING, ROUTED, EXECUTING and CANCELLED results are rejected; COMPLETED, FAILED and TIMED_OUT pass |
| Messages.NewMessage | src/itom_orchestrator/models/messages.py:29-83 | a message is accepted iff message_id, sender_agent and subject are not blank; they are stored unstripped; one error per blank field |
| Messages.DefaultMessageFields | src/itom_orchestrator/models/messages.py:53-59 | a message built without the optional fields is a broadcast with empty body and metadata, no correlation id and no expiry |
| Workflows.NewStep | src/itom_orchestrator/models/workflows.py:46-100 | a step is accepted iff step_id is not blank, on_failure is one of stop, skip, retry and the timeout is positive; the step is stored as given (id unstripped) |
| Workflows.DefaultStepFields | src/itom_orchestrator/models/workflows.py:66-75 | a defaulted step is a task step that stops on failure, times out after 300 s and allows 2 retries; only a blank id fails |
| Workflows.OnFailureChoices | src/itom_orchestrator/models/workflows.py:85-92 | "stop", "skip" and "retry" pass; "STOP" and "abort" are rejected (the check is case-sensitive) |
| Workflows.DuplicatesFromEmpty | src/itom_orchestrator/models/workflows.py:151-159 | the duplicate scan finds nothing iff the ids are distinct and none was seen before |
| Workflows.BadDependencyNone | src/itom_orchestrator/models/workflows.py:162-174 | a step's dependency scan finds nothing iff every dependency names a known step other than the step itself |
| Workflows.BadReferenceNone | src/itom_orchestrator/models/workflows.py:161-174 | the scan over all steps finds nothing iff every dependency of every step is known and not self-referencing |
| Workflows.ReferenceErrorNone | src/itom_orchestrator/models/workflows.py:146-176 | `validate_step_references` passes exactly for unique step ids, known dependencies and no self-dependency |
| Workflows.NewDefinition | src/itom_orchestrator/models/workflows.py:103-176 | a definition is accepted iff workflow_id is not blank, it has a step, and the reference check passes; it is stored as given |
| Workflows.TwoStepCycleAccepted | src/itom_orchestrator/models/workflows.py:171-174 | a two-step cycle a -> b -> a validates, while a step depending on itself is rejected |
| Workflows.NewExecution | src/itom_orchestrator/models/workflows.py:179-228 | an execution is accepted iff both ids are not blank; it starts PENDING with no current step, empty lists and maps, no start or completion time, no error and empty metadata |
| Engine.StepMap | src/itom_orchestrator/workflow_engine.py:167-302 | the step map holds exactly the definition's step ids, each mapped to a step carrying that id |
| Engine.StepMapAt | src/itom_orchestrator/workflow_engine.py:167-302 | with unique ids, each step's id maps to that very step |
| Engine.ReadyStepsSpec | src/itom_orchestrator/workflow_engine.py:292-319 | the ready list is exactly the remaining ids that name a step whose dependencies are all completed, kept in `steps_remaining` order |
| Engine.RemoveFirst | src/itom_orchestrator/workflow_engine.py:182-234 | `list.remove` drops exactly one copy of a present id and nothing else |
| Engine.RunStepLists | src/itom_orchestrator/workflow_engine.py:168-240 | one loop iteration either moves its id from remaining to completed or leaves both lists alone |
| Engine.RunStepSucceeded | src/itom_orchestrator/workflow_engine.py:176-186 | a successful step is recorded, moved to completed, and leaves the execution STEP_COMPLETED with no current step |
| Engine.RunStepSucceededContext | src/itom_orchestrator/workflow_engine.py:179-189 | the result is stored under the step id and its data enters the context only when non-empty |
| Engine.RunStepSkip | src/itom_orchestrator/workflow_engine.py:227-240 | a raising "skip" step gets a FAILED result from `workflow-engine` with the error message, is completed, and the batch goes on |
| Engine.RunBatchKeeps | src/itom_orchestrator/workflow_engine.py:167-240 | the batch keeps remaining/completed a partition of the step ids with completed steps' dependencies completed, and completes only ready ids |
| Engine.RunBatchAllSucceed | src/itom_orchestrator/workflow_engine.py:167-200 | when every step succeeds, the batch completes exactly the ready steps, in order |
| Engine.RunBatchStops | src/itom_orchestrator/workflow_engine.py:217-225 | a "stop" failure ends the batch with a FAILED execution carrying `Step '<id>' failed: <reason>`, the failing step still remaining |
| Engine.AdvanceKeepsPartition | src/itom_orchestrator/workflow_engine.py:150-259 | an advance keeps the partition and the dependency closure, and only appends ids that were ready when it started |
| Engine.AdvanceFromBatch | src/itom_orchestrator/workflow_engine.py:165-259 | an advance moves ids exactly as its batch does; the final check only sets the status |
| Engine.AdvanceCompletedIffEmpty | src/itom_orchestrator/workflow_engine.py:150-255 | without a "stop" failure, an advance ends COMPLETED exactly when nothing remains |
| Engine.AdvanceNoOpUnlessAdvanceable | src/itom_orchestrator/workflow_engine.py:131-141 | only RUNNING and STEP_COMPLETED executions move; any other status is returned unchanged |
| Engine.AdvanceWithoutDefinition | src/itom_orchestrator/workflow_engine.py:143-148 | without a registered definition the execution is FAILED with the fixed message and nothing runs |
| Engine.AdvanceProgress | src/itom_orchestrator/workflow_engine.py:116-259 | for an acyclic definition whose steps succeed, each advance of an unfinished execution completes at least one step |
| Engine.ReadyBatchSucceeds | src/itom_orchestrator/workflow_engine.py:150-200 | the ready batch of any execution runs to the end when every step succeeds |
| Engine.AdvanceRunsExactlyReady | src/itom_orchestrator/workflow_engine.py:150-259 | with every step succeeding, one advance completes exactly the steps that were ready, in order |
| Engine.CompletedStaysCompleted | src/itom_orchestrator/workflow_engine.py:131-141 | advancing a COMPLETED execution any number of times changes nothing |
| Engine.AdvanceStepFacts | src/itom_orchestrator/workflow_engine.py:116-259 | under succeeding steps one advance keeps the well-formedness facts and either completes or shrinks the remaining list |
| Engine.EventuallyCompleted | src/itom_orchestrator/workflow_engine.py:116-259 | an acyclic definition whose steps succeed is COMPLETED after at most as many advances as it has remaining steps |
| Engine.ChainReady | src/itom_orchestrator/workflow_engine.py:292-319 | in a chain a <- b only a is ready at first, and b once a is completed |
| Engine.ChainOneLinkPerCall | src/itom_orchestrator/workflow_engine.py:116-259 | a chain a <- b needs two advances: the first completes a only, the second completes b and the run |
| Engine.AdvanceStopFailure | src/itom_orchestrator/workflow_engine.py:217-225 | a "stop" failure leaves the execution FAILED with the step's message, and neither the failing step nor any step depending on it is completed |
| Engine.RetryStalls | src/itom_orchestrator/workflow_engine.py:170-240 | a raising "retry" step has no branch: when it is the only ready step, the execution stays STEP_EXECUTING on that step and every later advance is a no-op |
| Engine.AcknowledgeStep | src/itom_orchestrator/workflow_engine.py:364-380 | the default step result is a COMPLETED acknowledgment from the target agent or `workflow-engine`, echoing the step id and parameters |
| Engine.DefaultOracleSucceeds | src/itom_orchestrator/workflow_engine.py:335-380 | without an executor every step succeeds with non-empty data |
| Engine.StepTask | src/itom_orchestrator/workflow_engine.py:337-357 | the step task is a MEDIUM, PENDING task named `<execution>-<step>` whose parameters are the step's overlaid by the execution context |
| Engine.RunReady | src/itom_orchestrator/workflow_engine.py:167-240 | the batch loop computes the batch function over the ready ids |
| Engine.AdvanceRecord | src/itom_orchestrator/workflow_engine.py:131-259 | the body of `advance_workflow` computes the advance function |
| Engine.AdvanceEntryOk | src/itom_orchestrator/workflow_engine.py:116-259 | a stored execution keeps its ids, the partition of step ids and the dependency closure across an advance |
| Engine.WorkflowEngine.constructor | src/itom_orchestrator/workflow_engine.py:62-70 | the engine starts with no executions and no definitions |
| Engine.WorkflowEngine.StartWorkflow | src/itom_orchestrator/workflow_engine.py:72-114 | a new RUNNING execution with all step ids remaining in order and the given context (or empty) is stored with its definition |
| Engine.WorkflowEngine.GetReadySteps | src/itom_orchestrator/workflow_engine.py:292-319 | nothing without a definition; otherwise exactly the remaining ids whose step's dependencies are completed, in order |
| Engine.WorkflowEngine.AdvanceWorkflow | src/itom_orchestrator/workflow_engine.py:116-259 | the stored record becomes the advanced execution (also on a "stop" failure); definitions are untouched |
| Engine.WorkflowEngine.CancelWorkflow | src/itom_orchestrator/workflow_engine.py:261-290 | a known execution becomes CANCELLED with no current step; an unknown id is the KeyError message |
| Engine.WorkflowEngine.GetExecution | src/itom_orchestrator/workflow_engine.py:382-391 | the stored execution for a known id, nothing otherwise |
| Engine.WorkflowEngine.Collect | src/itom_orchestrator/workflow_engine.py:404-406 | the executions under the given ids, in that order, filtered by status |
| Engine.WorkflowEngine.ListExecutions | src/itom_orchestrator/workflow_engine.py:393-406 | exactly the stored executions with the requested status (all of them without one), in insertion order: the listing equals the filtered sequence of executions taken in `executionOrder` |
| Checkpoint.Checkpointer.constructor | src/itom_orchestrator/workflow_checkpoint.py:34-41 | opening the directory keeps the files already there |
| Checkpoint.Checkpointer.Load | src/itom_orchestrator/workflow_checkpoint.py:98-150 | the stored execution exactly when `<id>.json` exists and reads back as a checkpoint record; None otherwise |
| Checkpoint.Checkpointer.Save | src/itom_orchestrator/workflow_checkpoint.py:43-96 | a write through `<id>.json.tmp` and a rename: on success a load returns the execution; on failure every checkpoint reads as before; no temporary file is left and no other checkpoint changes |
| Checkpoint.Checkpointer.ListCheckpoints | src/itom_orchestrator/workflow_checkpoint.py:152-162 | exactly the ids of the checkpoint files, strictly ascending |
| Checkpoint.Checkpointer.Delete | src/itom_orchestrator/workflow_checkpoint.py:164-182 | True exactly when the checkpoint existed; afterwards it loads as None and the others are unchanged |
| Checkpoint.LastWriterWins | src/itom_orchestrator/workflow_checkpoint.py:43-150 | of two successful saves of one execution id, a load returns the second |
| Templates.NewTemplate | src/itom_orchestrator/workflow_templates.py:30-69 | a template is built exactly when its id and name are not blank, with one error per blank field |
| Templates.WithParameters | src/itom_orchestrator/workflow_templates.py:160-170 | every step keeps its place and gets the caller's parameters laid over its own |
| Templates.WithParametersKeepsStructure | src/itom_orchestrator/workflow_templates.py:160-183 | parameter substitution leaves step ids and dependencies, and so every structural check, as they were |
| Templates.InstanceMetadataRecords | src/itom_orchestrator/workflow_templates.py:178-182 | the instance metadata records the template id, the parameters given and the template's domain |
| Templates.Instance | src/itom_orchestrator/workflow_templates.py:140-197 | an instance exists exactly when the template's steps pass the definition's validation |
| Templates.InstanceValue | src/itom_orchestrator/workflow_templates.py:160-183 | a successful instance is the definition built from the template and the merged parameters |
| Templates.InstanceShape | src/itom_orchestrator/workflow_templates.py:160-183 | the instance id is `<template id>-<suffix>`, name and description are the template's, the version is 1.0.0 |
| Templates.InstanceSteps | src/itom_orchestrator/workflow_templates.py:160-177 | the instance has the template's steps in order, each with the caller's parameters laid over its own |
| Templates.LookupSorted | src/itom_orchestrator/workflow_templates.py:123-138 | looking up the ascending ids of a domain lists exactly that domain's templates, ascending |
| Templates.TemplateRegistry.constructor | src/itom_orchestrator/workflow_templates.py:78-79 | a new registry is empty |
| Templates.TemplateRegistry.Register | src/itom_orchestrator/workflow_templates.py:81-105 | a duplicate id is refused with the ValueError message and changes nothing; otherwise the template is filed under its id |
| Templates.TemplateRegistry.Get | src/itom_orchestrator/workflow_templates.py:107-121 | the template under a known id, the KeyError message otherwise |
| Templates.TemplateRegistry.Count | src/itom_orchestrator/workflow_templates.py:198-201 | the number of registered ids |
| Templates.TemplateRegistry.ListTemplates | src/itom_orchestrator/workflow_templates.py:123-138 | every registered template (of the domain, when one is given), strictly ascending by id |
| Templates.TemplateRegistry.Instantiate | src/itom_orchestrator/workflow_templates.py:140-197 | the KeyError message for an unknown id, otherwise the stored template's instance |
| Templates.ChainIsValid | src/itom_orchestrator/workflow_templates.py:204-351 | a three-step chain with distinct ids passes every structural check of a definition |
| Templates.ChainInstantiates | src/itom_orchestrator/workflow_templates.py:140-197 | a template whose steps form such a chain instantiates with any parameters |
| Templates.CmdbHealthCheckChain | src/itom_orchestrator/workflow_templates.py:211-245 | the cmdb-health-check template is a linear chain and always instantiates |
| Templates.IncidentResponseChain | src/itom_orchestrator/workflow_templates.py:246-280 | the incident-response template is a linear chain and always instantiates |
| Templates.DiscoveryAuditChain | src/itom_orchestrator/workflow_templates.py:281-315 | the discovery-audit template is a linear chain and always instantiates |
| Templates.AssetLifecycleChain | src/itom_orchestrator/workflow_templates.py:316-350 | the asset-lifecycle template is a linear chain and always instantiates |
| Templates.DefaultTemplateIds | src/itom_orchestrator/workflow_templates.py:204-351 | the default template ids are the four names, in order, distinct |
| Templates.DefaultTemplatesWellFormed | src/itom_orchestrator/workflow_templates.py:204-351 | four default templates with distinct ids, each a linear chain that instantiates successfully |
| Templates.RegisterAll | src/itom_orchestrator/workflow_templates.py:354-366 | registering distinct templates into an empty registry files every one of them: exactly their ids are keys, and each id holds its own template |
| Templates.ChainsFiled | src/itom_orchestrator/workflow_templates.py:354-366 | every template filed from a list of linear chains is a linear chain |
| Templates.FourFiled | src/itom_orchestrator/workflow_templates.py:354-366 | a registry filed from the four default chains holds exactly four templates, under the four ids, each a linear chain |
| Templates.DefaultRegistry | src/itom_orchestrator/workflow_templates.py:354-366 | the default registry holds exactly the four default template ids, 4 templates in all, each id holding its default template, and every stored template a 3-step linear chain |
| Executor.Dispatch | src/itom_orchestrator/executor.py:433-478 | without a handler the task is acknowledged; a handler's result counts only when it came back within the timeout, a late one is a timeout; a handler that raises is an error carrying its message, one that raises a timeout is a timeout |
| Executor.RecordOf | src/itom_orchestrator/executor.py:291-413 | each attempt leaves one terminal record: COMPLETED exactly when answered, TIMED_OUT exactly when it expired, FAILED otherwise |
| Executor.AttemptsFromStep | src/itom_orchestrator/executor.py:270-422 | a success ends the run with its result; a failure on the last attempt raises (a timeout as TaskTimeoutError, anything else as TaskRetryExhaustedError); an earlier failure moves to the next attempt |
| Executor.AttemptsFromRecords | src/itom_orchestrator/executor.py:270-422 | one record per attempt, numbered in order, none successful but possibly the last |
| Executor.AttemptsFromResult | src/itom_orchestrator/executor.py:270-422 | the run succeeds exactly when its last attempt answered, and returns that result; an error comes only from the last allowed attempt and is a timeout exactly when that attempt timed out |
| Executor.RunSpec | src/itom_orchestrator/executor.py:253-431 | at most `max_retries + 1` attempts with one terminal record each, stopping at the first success; a run that raises used every attempt |
| Executor.LateResultIsTimeout | src/itom_orchestrator/executor.py:461-465 | a handler answering after the timeout leaves a TIMED_OUT record |
| Executor.DefaultDispatchSucceeds | src/itom_orchestrator/executor.py:467-478 | without a handler every task is acknowledged on its first attempt |
| Executor.Backoff | src/itom_orchestrator/executor.py:503-515 | the delay never exceeds the configured cap |
| Executor.BackoffGrows | src/itom_orchestrator/executor.py:503-515 | with a non-negative base and a factor of at least one, delays never shrink from one retry to the next |
| Executor.DefaultBackoff | src/itom_orchestrator/executor.py:503-515 | the default delays run 1, 2, ..., 32 seconds and reach the 60 s cap at the seventh retry |
| Executor.CountStatus | src/itom_orchestrator/executor.py:554-586 | a status count never exceeds the history length |
| Executor.DistributionTotal | src/itom_orchestrator/executor.py:573-577 | the status distribution accounts for the whole history |
| Executor.AppendTrimmedRecord | src/itom_orchestrator/executor.py:246-251 | append, then keep the newest `max_history_records` records |
| Executor.TrimmedStaysTerminal | src/itom_orchestrator/executor.py:246-251 | a bounded, all-terminal history stays bounded and all-terminal after an append |
| Executor.TaskExecutor.constructor | src/itom_orchestrator/executor.py:191-202 | the executor takes its configuration and starts with no history and no active task |
| Executor.TaskExecutor.AppendRecord | src/itom_orchestrator/executor.py:246-251 | the record is appended and the oldest records beyond the bound are dropped; with a positive bound the record is the newest |
| Executor.TaskExecutor.Execute | src/itom_orchestrator/executor.py:253-431 | the result is the run's, its records are appended (trimmed as they go), and the task is no longer active afterwards |
| Executor.TaskExecutor.RunAttempts | src/itom_orchestrator/executor.py:270-428 | the retry loop computes the run's result and appends its records in order |
| Executor.TaskExecutor.BackoffFor | src/itom_orchestrator/executor.py:503-515 | the delay never exceeds the executor's cap |
| Executor.TaskExecutor.Matching | src/itom_orchestrator/executor.py:529-532 | a non-empty task id keeps exactly that task's records, each as often and in the order the history holds them (`Where` with the task-id test); None or an empty id keeps the whole history |
| Executor.TaskExecutor.GetExecutionHistory | src/itom_orchestrator/executor.py:517-535 | the matching records the limit's slice keeps, newest first |
| Executor.TaskExecutor.GetActiveTasks | src/itom_orchestrator/executor.py:537-552 | one summary per active task, carrying its id, title, domain, priority and status |
| Executor.TaskExecutor.GetExecutionStats | src/itom_orchestrator/executor.py:554-586 | the total counts every record and splits into completed, failed and timed out; the active count is the number of active tasks |
| Executor.TaskHistoryAppend | src/itom_orchestrator/executor.py:530 | one more history record leaves a task's earlier records in front, in order, and comes last exactly when it belongs to that task |
| Router.AnyKeywordIff | src/itom_orchestrator/router.py:167-172 | the keyword loop succeeds exactly when some lowercased keyword occurs in the text |
| Router.MatchesIff | src/itom_orchestrator/router.py:149-174 | a rule matches exactly when its domain is the task's or one of its keywords, lowercased, occurs in the lowercased "title description"; a rule with neither never matches |
| Router.Insert | src/itom_orchestrator/router.py:259-262 | inserting adds one rule and loses none |
| Router.InsertSorted | src/itom_orchestrator/router.py:259-262 | insertion keeps a list sorted by priority |
| Router.InsertPermutes | src/itom_orchestrator/router.py:259-262 | insertion adds exactly the new rule, as a multiset |
| Router.SortRules | src/itom_orchestrator/router.py:259-262 | the sorted rules are ordered by priority and as many as before |
| Router.SortRulesPermutes | src/itom_orchestrator/router.py:259-262 | sorting is a permutation of the rules |
| Router.SortRulesStable | src/itom_orchestrator/router.py:259-262 | the sort is stable: rules of equal priority keep their relative order |
| Router.InsertKeepsOrder | src/itom_orchestrator/router.py:547-564 | inserting into a sorted list puts the rule after every rule of its own priority |
| Router.InsertAtEnd | src/itom_orchestrator/router.py:547-564 | a rule with nothing of higher priority goes last |
| Router.SortRulesSorted | src/itom_orchestrator/router.py:259-262 | sorting an already sorted list changes nothing |
| Router.WithoutName | src/itom_orchestrator/router.py:566-583 | exactly the rules of another name remain |
| Router.WithoutNameSorted | src/itom_orchestrator/router.py:566-583 | removal keeps the rules sorted |
| Router.WithoutNameShrinks | src/itom_orchestrator/router.py:566-583 | the list shrinks exactly when some rule has the name |
| Router.SelectionHead | src/itom_orchestrator/router.py:398-422 | a listing is non-empty exactly when something matches, and then starts with the least id |
| Router.UsableFacts | src/itom_orchestrator/router.py:509-524 | every usable agent is a registered, eligible record; one exists exactly when some agent is eligible, and the first has the least id |
| Router.RequiredCapability | src/itom_orchestrator/router.py:317-322 | a capability is asked for exactly when `required_capability` is a non-empty string |
| Router.TaskRouter.constructor | src/itom_orchestrator/router.py:252-264 | the given rules, or the defaults when none or an empty list is given, stably sorted by priority; an empty history |
| Router.TaskRouter.RouteExplicit | src/itom_orchestrator/router.py:333-364 | the explicit step computes the routing specification |
| Router.TaskRouter.ApplyRule | src/itom_orchestrator/router.py:378-437 | one turn of the rule loop computes the rule's pick |
| Router.TaskRouter.RouteRules | src/itom_orchestrator/router.py:366-439 | the rule loop computes the first rule's pick, in priority order |
| Router.TaskRouter.RouteDomain | src/itom_orchestrator/router.py:441-477 | domain routing computes the domain's pick |
| Router.TaskRouter.RouteCapability | src/itom_orchestrator/router.py:479-507 | capability routing computes the capability's pick |
| Router.TaskRouter.Route | src/itom_orchestrator/router.py:266-331 | the decision is the specification's: explicit target, rules, domain, then capability; a success is appended to the history and nothing else changes |
| Router.TaskRouter.AddRule | src/itom_orchestrator/router.py:547-564 | the rule is appended and the list re-sorted stably, which is inserting it after every rule of its priority |
| Router.TaskRouter.RemoveRule | src/itom_orchestrator/router.py:566-583 | every rule of the name is dropped; True exactly when one was there |
| Router.TaskRouter.GetRules | src/itom_orchestrator/router.py:585-591 | the rules in evaluation order, sorted by priority |
| Router.TaskRouter.RuleCount | src/itom_orchestrator/router.py:605-608 | the number of rules |
| Router.TaskRouter.GetRoutingHistory | src/itom_orchestrator/router.py:593-604 | the records the limit's slice keeps, newest first |
| Router.TryRuleSound | src/itom_orchestrator/router.py:378-437 | a rule's pick is a registered record, available when availability is required |
| Router.RulesSound | src/itom_orchestrator/router.py:366-439 | the same for the whole rule loop |
| Router.RouteByDomainSmallestId | src/itom_orchestrator/router.py:441-477 | domain routing picks the usable agent of the domain with the least id, counts every agent of the domain as a candidate, and succeeds exactly when one is usable |
| Router.RouteByCapabilitySmallestId | src/itom_orchestrator/router.py:479-507 | the same for agents declaring the required capability |
| Router.RouteSound | src/itom_orchestrator/router.py:266-331 | a decision names a registered agent as stored; with `require_available` it is ONLINE or DEGRADED |
| Router.RouteExplicitTarget | src/itom_orchestrator/router.py:302-364 | an explicit target decides alone: NoRouteFound when unregistered, AgentUnavailable when required and unavailable, otherwise it is picked |
| Router.RouteDomainComplete | src/itom_orchestrator/router.py:441-477 | without a target, a task whose domain has a usable agent is always routed |
| Router.RuleWithBadTargetSkipped | src/itom_orchestrator/router.py:382-395 | a matching rule whose target is unregistered, or unavailable when required, is skipped as a whole |
| Router.NonMatchingRuleSkipped | src/itom_orchestrator/router.py:378-380 | a rule that does not match is passed over |
| Router.DefaultRulesFacts | src/itom_orchestrator/router.py:188-231 | six default rules at priority 10, one per domain but orchestration, each with keywords and no target or capability |
| Common.ValuesAt | src/itom_orchestrator/registry.py:556-562 | the records stored under the given ids, in that order |
| Registry.Selection | src/itom_orchestrator/registry.py:556-603 | a listing: sorted by agent id, each item a registered record satisfying the criterion, every such record present |
| Registry.AgentIds | src/itom_orchestrator/registry.py:727-733 | the ids of the records, in order |
| Registry.ListingIds | src/itom_orchestrator/registry.py:556-603 | the ids of a listing are the matching ids in ascending order |
| Registry.ListingUnique | src/itom_orchestrator/registry.py:556-603 | a listing is determined by the registry and the criterion |
| Registry.SelectionFirst | src/itom_orchestrator/registry.py:556-603 | the first item of a non-empty listing has the least id of all matching agents |
| Registry.SelectionSize | src/itom_orchestrator/registry.py:556-603 | a listing holds one record per matching agent |
| Registry.Filter | src/itom_orchestrator/registry.py:573-602 | exactly the records satisfying the criterion, order kept |
| Registry.FilterIsWhere | src/itom_orchestrator/registry.py:573-602 | the criterion filter is the shared order-keeping `Where`: same records, same order, same multiplicity |
| Registry.FilterAscending | src/itom_orchestrator/registry.py:573-602 | filtering keeps the id order |
| Registry.FilterListing | src/itom_orchestrator/registry.py:564-603 | filtering a listing by a further criterion gives a listing for both |
| Registry.FilterKeepsRecords | src/itom_orchestrator/registry.py:564-603 | every kept item is a stored record satisfying both criteria |
| Registry.FilterKeepsMatches | src/itom_orchestrator/registry.py:564-603 | every stored record satisfying both criteria survives the filter |
| Registry.FilterSelection | src/itom_orchestrator/registry.py:564-603 | filtering the listing of one criterion by another gives the listing of both |
| Registry.SelectionSameMatching | src/itom_orchestrator/registry.py:556-603 | listings depend only on which agents match |
| Registry.CapabilitiesOf | src/itom_orchestrator/registry.py:701-704 | exactly the capabilities of the given agents |
| Registry.CapabilitiesOfListing | src/itom_orchestrator/registry.py:690-704 | the capabilities gathered from a listing are those of the agents satisfying the criterion |
| Registry.CountAppend | src/itom_orchestrator/registry.py:717-721 | counting splits over concatenation |
| Registry.CountIsFilterLength | src/itom_orchestrator/registry.py:717-721 | a count is the length of the filtered list |
| Registry.CountOverAll | src/itom_orchestrator/registry.py:717-721 | counting over the full listing gives the number of agents satisfying the criterion |
| Registry.SelectionBothAny | src/itom_orchestrator/registry.py:556-603 | narrowing the full listing lists what the criterion alone lists |
| Registry.PutAll | src/itom_orchestrator/registry.py:446-456 | every record is stored under its own id and no other key appears |
| Registry.TallyCounts | src/itom_orchestrator/registry.py:717-721 | the tally holds a key exactly for the values that occur, with their number of occurrences |
| Registry.TallyAll | src/itom_orchestrator/registry.py:716-724 | the summary loop computes both tallies and the capability total |
| Registry.SummaryCounts | src/itom_orchestrator/registry.py:706-733 | tallying by domain and by status counts the matching agents, with a key only for a value that occurs |
| Registry.AgentRegistry.constructor | src/itom_orchestrator/registry.py:419-427 | a new registry is empty |
| Registry.AgentRegistry.StoreAll | src/itom_orchestrator/registry.py:444-448 | each loaded record is stored under its id |
| Registry.AgentRegistry.PopulateDefaults | src/itom_orchestrator/registry.py:454-457 | with no persisted state and defaults wanted, each default agent is stored under its id |
| Registry.AgentRegistry.Register | src/itom_orchestrator/registry.py:484-513 | an id already present is refused with AgentAlreadyRegistered and changes nothing; otherwise the agent is stored and returned |
| Registry.AgentRegistry.Unregister | src/itom_orchestrator/registry.py:515-538 | a known id is removed and its record returned; an unknown one is AgentNotFound and changes nothing |
| Registry.AgentRegistry.Get | src/itom_orchestrator/registry.py:540-554 | the record under a known id, AgentNotFound otherwise |
| Registry.AgentRegistry.Select | src/itom_orchestrator/registry.py:556-603 | the sorted comprehension computes the listing |
| Registry.AgentRegistry.ListAll | src/itom_orchestrator/registry.py:556-562 | every agent, sorted by id |
| Registry.AgentRegistry.SearchByDomain | src/itom_orchestrator/registry.py:564-574 | exactly the agents of the domain, sorted by id |
| Registry.AgentRegistry.SearchByCapability | src/itom_orchestrator/registry.py:576-591 | exactly the agents declaring a capability of that exact name, sorted by id |
| Registry.AgentRegistry.SearchByStatus | src/itom_orchestrator/registry.py:593-603 | exactly the agents with the status, sorted by id |
| Registry.AgentRegistry.UpdateStatus | src/itom_orchestrator/registry.py:605-649 | only the status and the health-check time change (a missing time means now); an unknown id is AgentNotFound |
| Registry.AgentRegistry.UpdateMetadata | src/itom_orchestrator/registry.py:651-688 | the metadata is merged (new values winning) or replaced, and nothing else changes; an unknown id is AgentNotFound |
| Registry.AgentRegistry.GetCapabilitiesForDomain | src/itom_orchestrator/registry.py:690-704 | exactly the capabilities of the domain's agents, agent after agent in id order |
| Registry.AgentRegistry.GetSummary | src/itom_orchestrator/registry.py:706-733 | counts by domain and by status for the values that occur, the agent total, the capability total and the sorted ids |
| Registry.AgentRegistry.AgentCount | src/itom_orchestrator/registry.py:735-738 | the number of registered agents |
| Registry.Capabilities | src/itom_orchestrator/registry.py:102-401 | the capabilities carry the given names, in order, in the agent's domain |
| Registry.DefaultAgent | src/itom_orchestrator/registry.py:102-401 | a default agent has its fixed id, domain, status and URL, is registered at now and never health-checked |
| Registry.DefaultAgentsFacts | src/itom_orchestrator/registry.py:102-401 | six default agents, one per domain but orchestration; only cmdb-agent is ONLINE with an MCP URL |
| Registry.DefaultRegistryKeys | src/itom_orchestrator/registry.py:102-457 | populating an empty registry with the defaults registers exactly the six ids |
| Health.ResultToStatus | src/itom_orchestrator/health.py:40-46 | HEALTHY is ONLINE, DEGRADED is DEGRADED, UNHEALTHY and UNREACHABLE are OFFLINE, SKIPPED is MAINTENANCE, each in both directions |
| Health.CheckedAgentRoutable | src/itom_orchestrator/health.py:330-333 | after a check the router may pick the agent exactly when the result was HEALTHY or DEGRADED |
| Health.PerformCheck | src/itom_orchestrator/health.py:229-290 | DEGRADED exactly when the agent declares an MCP endpoint; otherwise UNHEALTHY without capabilities and HEALTHY with some |
| Health.PerformCheckNeverMaintenance | src/itom_orchestrator/health.py:229-290 | a registration-based check never reports UNREACHABLE or SKIPPED, so never sets MAINTENANCE |
| Health.Lookup | src/itom_orchestrator/health.py:472-486 | a non-empty answer is the records of an entry with that id |
| Health.IndexOf | src/itom_orchestrator/health.py:194-195 | the position of the agent's entry, or none when no entry has that id |
| Health.Trim | src/itom_orchestrator/health.py:200-202 | the newest `max_history_per_agent` records when the list is longer, the list itself otherwise |
| Health.AddRecord | src/itom_orchestrator/health.py:193-202 | the append and per-agent trim keep the agent ids distinct |
| Health.AddRecordLookup | src/itom_orchestrator/health.py:193-202 | after the append the agent's records are its old ones plus the new record, trimmed |
| Health.AppendTrimmed | src/itom_orchestrator/health.py:193-202 | the append-and-trim statements compute the append function |
| Health.ReplaceAt | src/itom_orchestrator/health.py:198-202 | replacing an agent's entry keeps ids distinct and is what a lookup then finds |
| Health.AppendNew | src/itom_orchestrator/health.py:194-198 | adding a new agent's entry last keeps ids distinct and is what a lookup then finds |
| Health.LookupAt | src/itom_orchestrator/health.py:472-486 | looking up the id stored at a position finds that entry |
| Health.LookupAbsent | src/itom_orchestrator/health.py:472-486 | an agent without an entry has no records |
| Health.AddRecordOthers | src/itom_orchestrator/health.py:193-202 | appending a record leaves every other agent's records as they were |
| Health.Oldest | src/itom_orchestrator/health.py:207-213 | the scan picks an agent that has records |
| Health.OldestSpec | src/itom_orchestrator/health.py:207-213 | the scan finds an agent exactly when one has records; its first record is no newer than any other's and strictly older than those of the agents before it |
| Health.EvictOneTotal | src/itom_orchestrator/health.py:214-218 | while records remain and no id is empty, each eviction removes exactly one record |
| Health.EvictOneKeeps | src/itom_orchestrator/health.py:214-218 | eviction keeps ids distinct and non-empty and never lengthens an agent's records |
| Health.DropEntryKeeps | src/itom_orchestrator/health.py:217-218 | deleting an emptied agent keeps the other entries' invariants |
| Health.DropRecordKeeps | src/itom_orchestrator/health.py:215-216 | dropping an agent's oldest record keeps the invariants |
| Health.EvictKeeps | src/itom_orchestrator/health.py:204-219 | any number of evictions keeps ids distinct and agents within their bound |
| Health.EvictTotal | src/itom_orchestrator/health.py:204-219 | `n` evictions remove `n` records, or all there are |
| Health.AddRecordKeeps | src/itom_orchestrator/health.py:193-202 | appending keeps every agent within its bound and adds at most one record |
| Health.TrimAppendBounded | src/itom_orchestrator/health.py:198-202 | trimming after an append keeps a list within the bound and grows it by at most one |
| Health.AppendHistoryBounded | src/itom_orchestrator/health.py:191-219 | no agent keeps more than `max_history_per_agent` records and the total never exceeds `max_total_history` |
| Health.AppendHistoryNoEviction | src/itom_orchestrator/health.py:191-219 | below the total bound nothing is evicted: the agent's list is its old one plus the record, trimmed, and the others are unchanged |
| Health.FindOldest | src/itom_orchestrator/health.py:207-213 | the scan loop computes the oldest-entry function |
| Health.EvictOldest | src/itom_orchestrator/health.py:207-218 | one loop turn drops the oldest first record across all agents |
| Health.EvictOverflow | src/itom_orchestrator/health.py:204-219 | the eviction loop runs once per record over the bound |
| Health.HealthChecker.constructor | src/itom_orchestrator/health.py:136-147 | a checker over the registry with the configured bounds, an empty cache and an empty history |
| Health.HealthChecker.AppendAndTrim | src/itom_orchestrator/health.py:193-202 | the agent's list gets the record and is trimmed; the cache is untouched |
| Health.HealthChecker.AddToHistory | src/itom_orchestrator/health.py:191-219 | the history becomes the appended, trimmed and evicted one and keeps both bounds |
| Health.HealthChecker.CheckAgent | src/itom_orchestrator/health.py:292-353 | a valid cached record unless forced; otherwise AgentNotFound for an unknown id, or a fresh check that is cached, sets the registry status and check time, and is appended to the history |
| Health.HealthChecker.GetHistory | src/itom_orchestrator/health.py:467-482 | the agent's records the limit's slice keeps, newest first |
| Health.HealthChecker.ClearCache | src/itom_orchestrator/health.py:523-538 | a given id drops only that entry; no id (or an empty one) clears the cache |
| Health.CacheServesWithinTtl | src/itom_orchestrator/health.py:221-227 | a cached record is served for exactly `cache_ttl` clock units after it was taken |
| Messaging.Rank | src/itom_orchestrator/messaging.py:37-42 | CRITICAL ranks 0 and LOW ranks 3, within 0..3 |
| Messaging.RankOrder | src/itom_orchestrator/messaging.py:37-42 | ranks follow CRITICAL < HIGH < NORMAL < LOW and tell priorities apart |
| Messaging.Push | src/itom_orchestrator/messaging.py:92-96 | the push adds the entry and keeps every queued one |
| Messaging.PushPermutes | src/itom_orchestrator/messaging.py:92-96 | the push adds exactly one entry, as a multiset |
| Messaging.PushOrdered | src/itom_orchestrator/messaging.py:92-97 | with a fresh sequence number the queue stays in serving order |
| Messaging.PushPosition | src/itom_orchestrator/messaging.py:92-97 | the new entry is served after every queued entry of its own or a more urgent rank and before every less urgent one |
| Messaging.Messages | src/itom_orchestrator/messaging.py:152-153 | the messages of the entries, in order |
| Messaging.MessageQueue.constructor | src/itom_orchestrator/messaging.py:77-80 | no queues and a zero sequence counter |
| Messaging.MessageQueue.Enqueue | src/itom_orchestrator/messaging.py:82-109 | the message is pushed onto its recipient's queue with the next sequence number; the total grows by one |
| Messaging.MessageQueue.Dequeue | src/itom_orchestrator/messaging.py:111-139 | None for an empty or unknown recipient; otherwise the head, which is removed, and an emptied queue is deleted |
| Messaging.MessageQueue.Peek | src/itom_orchestrator/messaging.py:141-153 | the queued messages in serving order, nothing removed |
| Messaging.MessageQueue.GetAll | src/itom_orchestrator/messaging.py:155-166 | the queued messages in serving order, and the queue is removed |
| Messaging.MessageQueue.Clear | src/itom_orchestrator/messaging.py:168-194 | with an id that queue is dropped and its length returned; without one every queue is dropped and the total returned |
| Messaging.MessageQueue.QueueSize | src/itom_orchestrator/messaging.py:196-206 | the length of the recipient's queue |
| Messaging.MessageQueue.TotalMessages | src/itom_orchestrator/messaging.py:208-215 | the sum of the queue lengths |
| Messaging.PeekOrder | src/itom_orchestrator/messaging.py:82-166 | messages come out most urgent first and first-in first-out within a priority, all for the recipient; so the head that `dequeue` pops has the least (rank, sequence) |
| Events.IndexOfId | src/itom_orchestrator/event_bus.py:107-110 | the position of the first subscription with the id, or -1 exactly when there is none |
| Events.RemoveAt | src/itom_orchestrator/event_bus.py:110 | the list without the element at the position, the others in order |
| Events.Selected | src/itom_orchestrator/event_bus.py:188-191 | with a type, exactly the events of that type; without, the whole history |
| Events.FindSubscription | src/itom_orchestrator/event_bus.py:108-110 | the search loop finds the first subscription with the id |
| Events.AppendUnique | src/itom_orchestrator/event_bus.py:82-85 | a subscription under an unused id keeps the ids unique |
| Events.RemoveUnique | src/itom_orchestrator/event_bus.py:107-120 | removing a subscription keeps the ids unique |
| Events.RemoveLeavesUnused | src/itom_orchestrator/event_bus.py:107-120 | once its subscription is removed, the id is no longer in use |
| Events.EventBus.constructor | src/itom_orchestrator/event_bus.py:66-70 | no subscribers and an empty history |
| Events.EventBus.Subscribe | src/itom_orchestrator/event_bus.py:72-96 | the subscription is appended to its type's handlers under the fresh id, which is returned |
| Events.EventBus.Unsubscribe | src/itom_orchestrator/event_bus.py:98-121 | True exactly when the id was in use, and then only its subscription is removed; otherwise nothing changes |
| Events.EventBus.Publish | src/itom_orchestrator/event_bus.py:123-172 | the event joins the history (newest 1000 kept); every handler of its type is called in order and counted, raising or not |
| Events.EventBus.GetHistory | src/itom_orchestrator/event_bus.py:174-194 | the events of the type (or all) that the limit's slice keeps, newest first |
| Events.EventBus.ClearHistory | src/itom_orchestrator/event_bus.py:196-205 | the history is emptied and its length returned |
| Events.EventBus.SubscriberCount | src/itom_orchestrator/event_bus.py:207-214 | the number of subscriptions over all event types |
| Events.PublishHistory | src/itom_orchestrator/event_bus.py:136-139 | the history stays within 1000 and ends with the published event after the older ones |
| Events.GetHistorySpec | src/itom_orchestrator/event_bus.py:174-194 | the matching events the limit's slice keeps, newest first |
| Events.NewestMatchFirst | src/itom_orchestrator/event_bus.py:174-194 | the newest event of the asked type comes first |
| Audit.ParseEventType | src/itom_orchestrator/audit_trail.py:24-34 | a parsed event type has exactly the given value |
| Audit.EventTypeRoundTrip | src/itom_orchestrator/audit_trail.py:24-34 | every event type's value parses back to it |
| Audit.Matching | src/itom_orchestrator/audit_trail.py:112-120 | the filters never add entries |
| Audit.MatchingIff | src/itom_orchestrator/audit_trail.py:112-120 | an entry is returned by the filters exactly when it is recorded and passes every given filter |
| Audit.MatchingAppend | src/itom_orchestrator/audit_trail.py:70-120 | recording an entry adds it to the end of every query it passes, and of no other |
| Audit.Dump | src/itom_orchestrator/audit_trail.py:151-158 | an exported record holds exactly the entry's seven fields |
| Audit.DumpLoad | src/itom_orchestrator/audit_trail.py:151-158 | each exported record reads back as the entry it came from |
| Audit.AuditTrail.constructor | src/itom_orchestrator/audit_trail.py:66-68 | a new trail is empty |
| Audit.AuditTrail.Record | src/itom_orchestrator/audit_trail.py:70-91 | the entry is appended and only the newest 10000 kept; it is the newest, after the older ones in order |
| Audit.AuditTrail.GetEntries | src/itom_orchestrator/audit_trail.py:93-123 | exactly the recorded entries passing every given filter, as many as the limit's slice keeps, newest first |
| Audit.AuditTrail.GetRecent | src/itom_orchestrator/audit_trail.py:125-135 | the same as a query with no filter |
| Audit.AuditTrail.Clear | src/itom_orchestrator/audit_trail.py:137-149 | the trail is emptied and its length returned |
| Audit.AuditTrail.ExportJson | src/itom_orchestrator/audit_trail.py:151-158 | one record per entry, in recording order, each reading back as its entry |
| Audit.AuditTrail.EntryCount | src/itom_orchestrator/audit_trail.py:160-163 | the number of entries, which is the number of exported records |
| Audit.GetEntriesSpec | src/itom_orchestrator/audit_trail.py:119-123 | a query answers the matching entries the limit's slice keeps, newest first |
| Audit.RecordedEntryFirst | src/itom_orchestrator/audit_trail.py:70-123 | a just-recorded entry that passes the filters heads the query's answer |
| Roles.NewRolePolicy | src/itom_orchestrator/role_enforcer.py:33-69 | a policy is built exactly when role_id and name are not blank, with one error per blank field |
| Roles.FirstSegment | src/itom_orchestrator/role_enforcer.py:231 | everything before the first dot, which is followed by a dot when the string goes on |
| Roles.ActionPrefix | src/itom_orchestrator/role_enforcer.py:231 | the prefix is empty exactly when the action has no dot |
| Roles.CheckPermissionIff | src/itom_orchestrator/role_enforcer.py:181-245 | granted exactly when the role is known and either "*" is allowed, or the domain passes (none given, no restriction, or listed) and the action or its "<prefix>.*" is listed |
| Roles.UnknownRoleDenied | src/itom_orchestrator/role_enforcer.py:199-205 | an unknown role is refused everything |
| Roles.PermissionsIgnored | src/itom_orchestrator/role_enforcer.py:181-245 | the permission levels never enter the decision |
| Roles.FirstSegmentOf | src/itom_orchestrator/role_enforcer.py:231 | the first segment of "<category>.<rest>" is the category |
| Roles.PrefixGrants | src/itom_orchestrator/role_enforcer.py:226-233 | a wildcard prefix grants every action under it, on an allowed domain |
| Roles.FromListKeys | src/itom_orchestrator/role_enforcer.py:158-161 | exactly the listed roles are stored, each under its own id |
| Roles.FromListLast | src/itom_orchestrator/role_enforcer.py:158-161 | a role holds the last policy listed for it |
| Roles.RoleEnforcer.constructor | src/itom_orchestrator/role_enforcer.py:157-161 | the given policies (the defaults when none are given), keyed by role id |
| Roles.RoleEnforcer.AddPolicy | src/itom_orchestrator/role_enforcer.py:163-179 | the role's policy is added or replaced and nothing else changes |
| Roles.RoleEnforcer.Check | src/itom_orchestrator/role_enforcer.py:181-245 | the decision over the stored policies; a grant implies the role is known |
| Roles.RoleEnforcer.GetAllowedDomains | src/itom_orchestrator/role_enforcer.py:247-259 | the role's domains, empty for an unknown role |
| Roles.RoleEnforcer.GetPolicy | src/itom_orchestrator/role_enforcer.py:261-270 | the stored policy of a known role, None otherwise |
| Roles.RoleEnforcer.ListPolicies | src/itom_orchestrator/role_enforcer.py:272-278 | every stored policy once, strictly ascending by role id |
| Roles.RoleEnforcer.PolicyCount | src/itom_orchestrator/role_enforcer.py:281-283 | the number of stored roles |
| Roles.SortedView | src/itom_orchestrator/role_enforcer.py:272-278 | the policies under the ascending ids are each policy once, ascending by role id |
| Roles.DuplicateErrors | src/itom_orchestrator/role_enforcer.py:362-367 | the first loop reports only duplicate ids that repeat |
| Roles.PolicyErrors | src/itom_orchestrator/role_enforcer.py:369-376 | the second loop reports no duplicate |
| Roles.ValidateRoleConfig | src/itom_orchestrator/role_enforcer.py:346-378 | every duplicate finding is reported |
| Roles.DuplicateErrorsIff | src/itom_orchestrator/role_enforcer.py:362-367 | each repeated id is reported, and only repeated ids are |
| Roles.PolicyErrorsIff | src/itom_orchestrator/role_enforcer.py:369-376 | a policy's own findings appear exactly when it lacks permissions, or both domains and actions |
| Roles.ValidateRoleConfigIff | src/itom_orchestrator/role_enforcer.py:346-378 | a configuration is accepted exactly when role ids are distinct and no policy is empty |
| Roles.DefaultRoleIdsDistinct | src/itom_orchestrator/role_enforcer.py:72-143 | the six default roles have six different ids |
| Roles.DefaultPoliciesValid | src/itom_orchestrator/role_enforcer.py:346-378 | the default policies pass the configuration check |
| Roles.OrchestratorUnrestricted | src/itom_orchestrator/role_enforcer.py:72-88 | with the defaults the orchestrator role may do anything, on any domain |
| RoutingConfiguration.NewRuleConfig | src/itom_orchestrator/routing_config.py:27-72 | a rule is built exactly when rule_id and name are not blank and the priority is not negative, with one to three errors otherwise |
| RoutingConfiguration.NewRoutingConfig | src/itom_orchestrator/routing_config.py:75-99 | a configuration is refused exactly when its version is blank |
| RoutingConfiguration.RuleDefaults | src/itom_orchestrator/routing_config.py:43-88 | with the defaults (priority 100, no criteria, enabled; version "1.0.0") only the blank-field checks can fail |
| RoutingConfiguration.DuplicateFindings | src/itom_orchestrator/routing_config.py:208-212 | a duplicate finding is reported for an id exactly when it repeats |
| RoutingConfiguration.CriteriaFindings | src/itom_orchestrator/routing_config.py:214-220 | a no-criteria finding is reported for an id exactly when some rule with it has no domain, keywords, capability or target agent |
| RoutingConfiguration.EnabledCount | src/itom_orchestrator/routing_config.py:223 | the count is zero exactly when no rule is enabled |
| RoutingConfiguration.ValidateRoutingConfig | src/itom_orchestrator/routing_config.py:191-238 | "all rules disabled" is reported exactly when there are rules and none is enabled |
| RoutingConfiguration.DuplicateFindingsEmpty | src/itom_orchestrator/routing_config.py:208-212 | no duplicate finding exactly when rule ids are distinct |
| RoutingConfiguration.CriteriaFindingsEmpty | src/itom_orchestrator/routing_config.py:214-220 | no criteria finding exactly when every rule has a criterion |
| RoutingConfiguration.ValidateRoutingConfigIff | src/itom_orchestrator/routing_config.py:191-238 | a configuration passes exactly when rule ids are distinct, every rule has a criterion, and some rule is enabled if there are any |
| RoutingConfiguration.EmptyConfigValid | src/itom_orchestrator/routing_config.py:224 | a configuration with no rules passes |
| RoutingConfiguration.ClarificationFallback | src/itom_orchestrator/routing_config.py:143-187 | the fallback template under the None key exists and is well formed |
| RoutingConfiguration.ClarificationTemplatesWellFormed | src/itom_orchestrator/routing_config.py:145-187 | every template has a question and at least two options |
| RoutingConfiguration.ClarificationKeysArePairs | src/itom_orchestrator/routing_config.py:143-145 | every key but the fallback is a pair of two domains |
| Files.Stem | src/itom_orchestrator/persistence.py:284-285 | the stem of a `.json` name is non-empty and names that very file |
| Files.Listed | src/itom_orchestrator/persistence.py:276-286 | a key is listed exactly when it is non-empty and `<key>.json` is present |
| Files.TempNotListed | src/itom_orchestrator/persistence.py:284 | a `.json.tmp` file never passes the suffix test |
| Files.NamesDistinct | src/itom_orchestrator/persistence.py:91-97 | distinct keys have distinct files, and no temporary file is a target |
| Files.ListedAfterReplace | src/itom_orchestrator/persistence.py:131-137 | renaming the temporary file over the target adds exactly the key to the listing |
| Files.ListedWithoutTemp | src/itom_orchestrator/persistence.py:138-141 | unlinking a temporary file leaves the listing as it was |
| Files.ListedAfterUnlink | src/itom_orchestrator/persistence.py:254 | unlinking `<key>.json` removes exactly the key from the listing |
| Persistence.KeyError | src/itom_orchestrator/persistence.py:74-89 | a key is refused exactly when the key pattern does not match it, an empty key with its own message |
| Persistence.ValidKeyIsSafe | src/itom_orchestrator/persistence.py:74-89 | an accepted key is non-empty, holds no '/' or '.', and only a final newline can fall outside `[a-zA-Z0-9_-]` |
| Persistence.KeyExamples | src/itom_orchestrator/persistence.py:29 | sample keys accepted and refused by the pattern, including the trailing newline `$` admits |
| Persistence.Unwrap | src/itom_orchestrator/persistence.py:171-211 | an unreadable file loads as None, a non-object envelope is an error |
| Persistence.MetadataOf | src/itom_orchestrator/persistence.py:304-325 | an unreadable file has no metadata, a non-object envelope is an error |
| Persistence.EnvelopeRoundTrip | src/itom_orchestrator/persistence.py:155-211 | a saved envelope loads back as the saved data, with the save's version, time and key as metadata |
| Persistence.UnwrapIgnoresVersion | src/itom_orchestrator/persistence.py:193-206 | a version mismatch only warns: what is loaded is the same |
| Persistence.StatePersistence.constructor | src/itom_orchestrator/persistence.py:61-72 | files already in the state directory stay |
| Persistence.StatePersistence.Load | src/itom_orchestrator/persistence.py:155-211 | an invalid key is an error; None exactly when the file is missing or unreadable; otherwise the envelope's data |
| Persistence.StatePersistence.Exists | src/itom_orchestrator/persistence.py:261-274 | an invalid key is an error; otherwise whether `<key>.json` is present |
| Persistence.StatePersistence.GetMetadata | src/itom_orchestrator/persistence.py:288-325 | an invalid key is an error; None exactly when the file is missing or unreadable; otherwise the fields of that file's envelope, each None when absent |
| Persistence.StatePersistence.Save | src/itom_orchestrator/persistence.py:99-153 | an invalid key changes nothing; a write stores the envelope so that the key loads back as the data, a failed write only removes the temporary file; no other key changes; the listing gains the key on success |
| Persistence.StatePersistence.Delete | src/itom_orchestrator/persistence.py:232-259 | an invalid key is an error; otherwise true exactly when the file was there, it is gone afterwards, and no other key changes |
| Persistence.StatePersistence.ListKeys | src/itom_orchestrator/persistence.py:276-286 | the stems of the `.json` files, strictly ascending |
| AgentConfig.NewConfigEntry | src/itom_orchestrator/agent_config.py:35-76 | an entry is built exactly when agent_id and name are not blank; both are stored stripped; one error per blank field |
| AgentConfig.NewConfigFile | src/itom_orchestrator/agent_config.py:79-101 | a file is built exactly when its version is not blank; the version is stored stripped |
| AgentConfig.Registration | src/itom_orchestrator/agent_config.py:327-337 | the registration built from an entry carries the entry's id and metadata |
| AgentConfig.EnabledCount | src/itom_orchestrator/agent_config.py:586 | at most the number of entries |
| AgentConfig.AdmitEntryGrows | src/itom_orchestrator/agent_config.py:307-339 | one entry never drops or replaces a registration, stores a new one under its own id, and registers an enabled entry unless it fails |
| AgentConfig.ApplyAllClean | src/itom_orchestrator/agent_config.py:307-339 | a clean walk ran clean on every prefix |
| AgentConfig.ApplyAllFailed | src/itom_orchestrator/agent_config.py:327-338 | a registration that fails validation ends the walk: later entries change nothing |
| AgentConfig.ApplyAllCounts | src/itom_orchestrator/agent_config.py:303-345 | added, skipped and disabled add up to the number of entries, and disabled is the number of disabled entries |
| AgentConfig.ApplyAllKeeps | src/itom_orchestrator/agent_config.py:290-292 | agents already registered stay as they were, and every registration sits under its own id |
| AgentConfig.ApplyAllRegisters | src/itom_orchestrator/agent_config.py:290-339 | after a clean walk every enabled entry's agent is registered |
| AgentConfig.AdmitEntryNoop | src/itom_orchestrator/agent_config.py:308-323 | a disabled or already registered entry only moves a counter |
| AgentConfig.ApplyEntryNoop | src/itom_orchestrator/agent_config.py:308-323 | the same for the entry's step with its registration built on demand |
| AgentConfig.ApplyAllNoop | src/itom_orchestrator/agent_config.py:307-323 | when every enabled entry is registered, the walk adds nothing and skips every enabled entry |
| AgentConfig.ApplyTwice | src/itom_orchestrator/agent_config.py:287-354 | applying the same configuration a second time adds nothing and skips every enabled entry |
| AgentConfig.EntryMap | src/itom_orchestrator/agent_config.py:391-392 | exactly the ids of the entries, each under an entry with that id |
| AgentConfig.IdOrder | src/itom_orchestrator/agent_config.py:391-400 | the dict's ids without repetition, exactly those of the entries |
| AgentConfig.IdOrderKeys | src/itom_orchestrator/agent_config.py:391-400 | every id of the dict order is a key of the dict under its own entry |
| AgentConfig.NewStepsAt | src/itom_orchestrator/agent_config.py:399-471 | after the first reload loop each listed id holds what its own step left and every other id is untouched |
| AgentConfig.NewStepsFailed | src/itom_orchestrator/agent_config.py:405-449 | a registration that fails validation ends the first loop |
| AgentConfig.LeftStepsAt | src/itom_orchestrator/agent_config.py:473-483 | after the second loop each old id holds what its own step left and every other id is untouched |
| AgentConfig.LeftStepsFailed | src/itom_orchestrator/agent_config.py:383-500 | a failure in the first loop skips the second |
| AgentConfig.ReloadEffect | src/itom_orchestrator/agent_config.py:369-500 | after a clean reload: new or re-enabled enabled entries are registered; newly disabled entries and entries that left the file are not; changed enabled entries carry exactly the new metadata; unchanged entries and agents neither file mentions are as before |
| AgentConfig.NewEntryChangeKeyed | src/itom_orchestrator/agent_config.py:400-471 | a step of the first loop stores only a registration for its own id |
| AgentConfig.NewStepsKeyed | src/itom_orchestrator/agent_config.py:400-471 | the first loop keeps every registration under its own id |
| AgentConfig.LeftStepsKeyed | src/itom_orchestrator/agent_config.py:474-483 | the second loop keeps every registration under its own id |
| AgentConfig.IndexOfAgent | src/itom_orchestrator/agent_config.py:562-566 | the first position holding the id, -1 exactly when none does |
| AgentConfig.AddThenRemove | src/itom_orchestrator/agent_config.py:522-566 | adding an entry and then removing its id gives back that entry and the list as it was |
| AgentConfig.AgentConfigLoader.constructor | src/itom_orchestrator/agent_config.py:166-179 | a new loader over the given registry has nothing loaded |
| AgentConfig.AgentConfigLoader.ApplyToRegistry | src/itom_orchestrator/agent_config.py:287-354 | fails with nothing loaded; otherwise the registry becomes the walk's result and the summary its counters and totals |
| AgentConfig.AgentConfigLoader.ApplyOne | src/itom_orchestrator/agent_config.py:307-339 | one iteration of the walk: the registry and counters become the entry's step |
| AgentConfig.AgentConfigLoader.Reload | src/itom_orchestrator/agent_config.py:369-500 | a read failure changes nothing; otherwise the new file becomes current, and the first load applies it while later loads apply the diff and report its counters |
| AgentConfig.AgentConfigLoader.DiffEntry | src/itom_orchestrator/agent_config.py:400-471 | one iteration of the first reload loop: the registry changes only at that id, as the step says |
| AgentConfig.AgentConfigLoader.RegisterEntry | src/itom_orchestrator/agent_config.py:404-457 | registering swallows an id already present and changes only that id |
| AgentConfig.AgentConfigLoader.ApplyDiff | src/itom_orchestrator/agent_config.py:390-483 | the registry becomes the result of the two reload loops |
| AgentConfig.AgentConfigLoader.NewLoop | src/itom_orchestrator/agent_config.py:400-471 | the first reload loop, as the specification of its steps |
| AgentConfig.AgentConfigLoader.LeftLoop | src/itom_orchestrator/agent_config.py:474-483 | the second reload loop, as the specification of its steps |
| AgentConfig.AgentConfigLoader.LeftStepOne | src/itom_orchestrator/agent_config.py:475-483 | an id that left the file is unregistered if present and counted |
| AgentConfig.AgentConfigLoader.NewStepOne | src/itom_orchestrator/agent_config.py:400-471 | one step of the first loop with its counters |
| AgentConfig.AgentConfigLoader.AddAgentToConfig | src/itom_orchestrator/agent_config.py:522-543 | fails with nothing loaded or a listed id; otherwise the entry is appended |
| AgentConfig.AgentConfigLoader.RemoveAgentFromConfig | src/itom_orchestrator/agent_config.py:545-566 | fails with nothing loaded or an unlisted id; otherwise the first entry with the id is removed and returned |
| AgentConfig.AgentConfigLoader.SaveCurrent | src/itom_orchestrator/agent_config.py:502-514 | fails with nothing loaded; otherwise only updated_at changes |
| Dispatch.WordRuns | src/itom_orchestrator/agent_dispatch.py:86 | the words found are non-empty runs of word characters |
| Dispatch.DropCommand | src/itom_orchestrator/agent_dispatch.py:152 | what is left is a suffix of the message |
| Dispatch.Normalize | src/itom_orchestrator/agent_dispatch.py:143-152 | the result has no surrounding whitespace and occurs in the message |
| Dispatch.NormalizeCommand | src/itom_orchestrator/agent_dispatch.py:143-152 | "/cmd query" normalises to the stripped query |
| Dispatch.NormalizePlain | src/itom_orchestrator/agent_dispatch.py:152 | a message without a leading "/command" is only stripped |
| Dispatch.NormalizeDropsOnce | src/itom_orchestrator/agent_dispatch.py:152 | only the first command token goes: a query that starts with "/word" itself is kept |
| Dispatch.FirstIndex | src/itom_orchestrator/agent_dispatch.py:87-96 | the first group of a table that matches, every earlier one failing |
| Dispatch.FirstGroup | src/itom_orchestrator/agent_dispatch.py:87-96 | None exactly when no group matches; otherwise the name of the first one that does |
| Dispatch.InferCiType | src/itom_orchestrator/agent_dispatch.py:68-96 | None exactly when no CI type has a matching keyword; otherwise the first type in table order that has one |
| Dispatch.WholeWordOnly | src/itom_orchestrator/agent_dispatch.py:89-95 | a keyword without a space matches only where it stands as a whole word |
| Dispatch.DbNotInCmdb | src/itom_orchestrator/agent_dispatch.py:81-94 | "db" does not match inside "show cmdb" |
| Dispatch.ShowCmdbWords | src/itom_orchestrator/agent_dispatch.py:86 | the words of "show cmdb" are "show" and "cmdb" |
| Dispatch.ServerFirst | src/itom_orchestrator/agent_dispatch.py:69-87 | a message with a server keyword is a server query, whatever later types match |
| Dispatch.ExtractEnvironment | src/itom_orchestrator/agent_dispatch.py:155-169 | None exactly when no environment phrase occurs; otherwise the first environment in test order whose phrase occurs |
| Dispatch.ProductionFirst | src/itom_orchestrator/agent_dispatch.py:161-162 | a message naming production is a production query |
| Dispatch.Lowered | src/itom_orchestrator/agent_dispatch.py:136 | each word lower-cased, in place |
| Dispatch.LowerJoin | src/itom_orchestrator/agent_dispatch.py:123-136 | lower-casing a join lower-cases each part and the separator |
| Dispatch.HintWords | src/itom_orchestrator/agent_dispatch.py:121-122 | the surviving words are non-empty and hold no whitespace |
| Dispatch.HintWordsMembers | src/itom_orchestrator/agent_dispatch.py:106-122 | the surviving words are exactly the message's words whose lower-case form is not stripped |
| Dispatch.NameHint | src/itom_orchestrator/agent_dispatch.py:99-140 | a hint is never empty and is the surviving words joined by spaces |
| Dispatch.NameHintSpec | src/itom_orchestrator/agent_dispatch.py:99-140 | a hint is given exactly when one to three words survive and none is a non-name word; it splits back into those words |
| Dispatch.HintOfWords | src/itom_orchestrator/agent_dispatch.py:123-138 | the hint guard, stated on the surviving words themselves |
| Dispatch.NameLikeLowered | src/itom_orchestrator/agent_dispatch.py:136-137 | the guard on lower-cased words, one word at a time |
| Dispatch.JoinedWords | src/itom_orchestrator/agent_dispatch.py:123-136 | words joined by spaces need no strip, split back into the words and lower-case into the lower-cased words |
| Dispatch.QueryPartsSpec | src/itom_orchestrator/agent_dispatch.py:178-192 | each missing-field filter appears exactly when one of its phrases occurs, once, in the fixed order |
| Dispatch.CustomQuery | src/itom_orchestrator/agent_dispatch.py:172-193 | None exactly when no filter applies; otherwise the filters joined by "^", which split back into them |
| Dispatch.FindSysId | src/itom_orchestrator/agent_dispatch.py:207 | the leftmost position at or after the start where 32 hex digits stand as a whole word; None when there is none |
| Dispatch.TrimCharsLeft | src/itom_orchestrator/agent_dispatch.py:228 | a suffix that does not start with a trimmed character |
| Dispatch.TrimCharsRight | src/itom_orchestrator/agent_dispatch.py:228 | a prefix that does not end with a trimmed character |
| Dispatch.TrimChars | src/itom_orchestrator/agent_dispatch.py:228 | an infix whose end characters are not trimmed ones |
| Dispatch.Bare | src/itom_orchestrator/agent_dispatch.py:227 | only word characters remain |
| Dispatch.IdentifierWords | src/itom_orchestrator/agent_dispatch.py:226-227 | the kept words are non-empty and hold no whitespace |
| Dispatch.Identifier | src/itom_orchestrator/agent_dispatch.py:196-235 | a found sys_id is returned as the leftmost 32-hex-digit run of the lower-cased message; otherwise a name of at most four words without end punctuation, or None |
| Dispatch.IdentifierName | src/itom_orchestrator/agent_dispatch.py:211-235 | without a sys_id, when the first remaining word does not start and the last does not end with punctuation (inner words may hold any), a name is returned exactly when one to four non-filler words remain, and it is made of those words |
| Dispatch.IdentifierTrailing | src/itom_orchestrator/agent_dispatch.py:226-235 | without a sys_id, punctuation closing the last remaining word is dropped ("web-server-01." names "web-server-01") and the words are otherwise kept, for one to four words |
| Dispatch.IdentifierWithoutSysId | src/itom_orchestrator/agent_dispatch.py:226-235 | without a sys_id, the name is the stripped join of the non-filler words when it is non-empty and at most four words long, else None |
| Dispatch.TrimRightSuffix | src/itom_orchestrator/agent_dispatch.py:228 | `rstrip` removes exactly a tail of stripped characters that follows a kept one |
| Dispatch.PlainJoin | src/itom_orchestrator/agent_dispatch.py:228 | words joined by spaces, the first not starting and the last not ending with punctuation, survive both strips whole and split back into the same words |
| Dispatch.ChatLine | src/itom_orchestrator/agent_dispatch.py:263-275 | a line becomes empty exactly when it was empty, and gains no newline |
| Dispatch.NestedItem | src/itom_orchestrator/agent_dispatch.py:268-271 | an indented line becomes a nested list item |
| Dispatch.ChatLines | src/itom_orchestrator/agent_dispatch.py:262-275 | every line converted, in order |
| Dispatch.ToChatMarkdown | src/itom_orchestrator/agent_dispatch.py:252-276 | the converted lines joined by newlines, which split back into the converted lines |
| Dispatch.FirstBranch | src/itom_orchestrator/agent_dispatch.py:773-919 | the first branch of the chain whose guard holds, every earlier one failing |
| Dispatch.Extract | src/itom_orchestrator/agent_dispatch.py:948-960 | the facts are read off the lower-cased message, the identifier-keyword flag agreeing with it |
| Dispatch.Take | src/itom_orchestrator/agent_dispatch.py:773-919 | a branch yields no call exactly when it needs an identifier and there is none; otherwise its own tool; a count flag comes only from the count branch, with limit 1 |
| Dispatch.SearchArguments | src/itom_orchestrator/agent_dispatch.py:951-962 | the search arguments: type (null when none) and limit 10, and a "*hint*" name, environment and custom query exactly when found |
| Dispatch.Fallback | src/itom_orchestrator/agent_dispatch.py:947-966 | searches exactly when a type or name is found, else shows the dashboard; never a count |
| Dispatch.Chosen | src/itom_orchestrator/agent_dispatch.py:773-919 | the first branch that holds gives its tool unless it needs a missing identifier |
| Dispatch.DecideOn | src/itom_orchestrator/agent_dispatch.py:757-969 | the count flag never reaches the tool; asking for an identifier implies an identifier keyword occurs |
| Dispatch.Decide | src/itom_orchestrator/agent_dispatch.py:758-969 | the count flag never reaches the tool |
| Dispatch.Handle | src/itom_orchestrator/agent_dispatch.py:757-969 | the handler, on the description or else the title: the count flag never reaches the tool |
| Dispatch.TakenBranchDecides | src/itom_orchestrator/agent_dispatch.py:773-919 | when the first branch that holds yields a call, that call is the decision |
| Dispatch.AskIff | src/itom_orchestrator/agent_dispatch.py:922-945 | the handler asks for an identifier exactly when an identifier keyword occurs and no branch gave a tool |
| Dispatch.NoBranchFallsBack | src/itom_orchestrator/agent_dispatch.py:947-966 | with no branch and no identifier keyword: the dashboard when nothing was found, else a search with limit 10 |
| Dispatch.CountFromCountBranch | src/itom_orchestrator/agent_dispatch.py:905-969 | only the count branch answers with a count |
| Dispatch.CountOnlySearch | src/itom_orchestrator/agent_dispatch.py:906-969 | a count asks the search tool for a single row |
| Dispatch.PopKeepsLimit | src/itom_orchestrator/agent_dispatch.py:969 | popping the count flag keeps the limit |
| Dispatch.BranchesFlagFree | src/itom_orchestrator/agent_dispatch.py:773-919 | no branch but the count one sets the count flag |
| Dispatch.CountQuery | src/itom_orchestrator/agent_dispatch.py:906-969 | in the handler, a count asks the search tool for a single row |
| Dispatch.TrendBeforeHealth | src/itom_orchestrator/agent_dispatch.py:769-777 | a trend request gets the trend report, although it mentions health too |
| Dispatch.DependencyImpactNeedId | src/itom_orchestrator/agent_dispatch.py:854-933 | each dependency or impact keyword contains an identifier keyword |
| Dispatch.NeedsIdGuard | src/itom_orchestrator/agent_dispatch.py:854-933 | the guards of the branches that need an identifier, but the comparison one, contain an identifier keyword |
| Dispatch.NeedsIdBranchAsks | src/itom_orchestrator/agent_dispatch.py:852-945 | a relationship, dependency, impact, history or detail request without an identifier is answered by asking for one |

## Left out

- Events.EventBus.Publish: handlers are assumed not to call back into the same bus while a publish runs. In the source the loop walks the live subscriber list (src/itom_orchestrator/event_bus.py:141-144): a handler that subscribes to the same event type is called in that same publish and counted; a handler that unsubscribes itself pops it in place (event_bus.py:110), so the next handler is skipped; a handler that publishes adds its nested event to the history before the outer call ends. The model calls and counts exactly the handlers subscribed on entry and leaves the subscriptions unchanged. No caller in the source re-enters the bus from a handler.
- Engine.WorkflowEngine.AdvanceWorkflow: the caller is assumed to pass the execution stored under its id, as every caller in the source does (it passes what `start_workflow` or `advance_workflow` returned). In the source a different object with the same id would be advanced and then stored in place of the old one (src/itom_orchestrator/workflow_engine.py:224 and 258); the model does not cover that case.
- Checkpoint.Checkpointer.Save: execution ids are not validated by the source, and the model treats each id as one flat file name in the workflows directory; an id containing `/`, `..` or other path syntax, which would write outside that directory, is outside the model.
- Checkpoint.Checkpointer.ListCheckpoints: for the same reason, only checkpoints saved under flat ids are listed by the model; files placed through path syntax in an id are outside it.
- Network and MCP calls are not modelled. This covers `_call_mcp_tool_sync`, the FastMCP client and its event loops, and `_make_generic_handler`'s listing and scoring of remote tools. The CMDB handler is modelled up to the tool and arguments it would call, or its request for a CI identifier.
- Response formatting is not modelled: `_format_cmdb_response` and `_format_dict_value` decode remote JSON and format floats.
- Concurrency is not modelled: thread pools, `asyncio`, and the timeout thread in `_dispatch_with_timeout`. An attempt's outcome and timing are inputs, and a late answer is an attempt whose elapsed time exceeds the timeout.
- `time.sleep` between retries is not modelled; the backoff is only computed. Backoff uses exact reals, not IEEE floats.
- Durations are opaque inputs. Rates and averages are left out: those in `get_execution_stats`, and `HealthChecker._compute_stats`.
- `HealthChecker.check_all`, `get_agent_health` and `get_all_health` are not modelled. They loop `check_agent` over the registry and assemble reports around the float statistics; `check_agent` itself is modelled.
- Serialization and the file system are not modelled. This covers JSON encoding and decoding, `load_model`'s schema validation, and file modification times (`has_file_changed`). A file is parsed content or unreadable.
- Loading and saving are not modelled: `AgentConfigLoader.load`, `ensure_config_exists`, `_write_config`, `generate_default_config` and `get_config_summary`. A reload is given the parsed file instead.
- These persistence routines are not modelled: `load_role_config`/`save_role_config`, `load_routing_config`, `AgentRegistry._save`, and the executor's and health checker's `_load_history`/`_save_history`. Of `AgentRegistry.initialize`, only the read of the registry file is left out: storing the loaded records and populating the defaults are modelled by `StoreAll` and `PopulateDefaults`.
- The service glue is not modelled: the servers, HTTP and API routes, notifications forwarding, settings loading, and logging output (`StructuredJsonFormatter.format`, `setup_logging`). Only `_redact` is modelled.
- Strings are handled as ASCII only. `str.strip`, `str.split`, `str.lower`, `\w` and `\s` use ASCII whitespace (including the separators \x1c to \x1f), letters and word characters; Python also treats Unicode ones, such as \x85 and \xa0.
- Engine.WorkflowEngine.StartWorkflow: a uuid becomes a caller-supplied `executionId`, required to be unused.
- Events.EventBus.Subscribe: a uuid becomes a caller-supplied id, required to be unused.
- Templates.Instance: the random 8-character suffix of a new workflow id is a parameter.
- RetryStalls: proved only when the raising "retry" step is the only ready step. When a later step of the same batch succeeds or is skipped, the status becomes STEP_COMPLETED again and the next advance re-runs the retry step; that case is not stated.
- Agents.NewCapability: `input_schema` and `output_schema` are not modelled; they are optional, never validated, and no modelled operation reads them.
- Router: a routing decision's reason is kept as its parts, not as the formatted sentence. The parts are the rule name, the domain or capability, the chosen agent id and the number of available agents.
- Validator messages keep their fixed text and the strings they quote: the agent_id message quotes the id and the pattern, and the dependency messages quote the step ids. Parts rendered from Python lists, sets or numbers are not rendered. These are the allowed on_failure set, the duplicate step ids, the sorted valid ids, `got {v}` for a timeout, and the retry counts.
- Executor.RecordOf: a timed-out attempt's error text is a fixed string. The timeout in seconds that the code formats into the message is not rendered.
- Messaging: each heap is represented by its entries in serving order. The heap's internal array layout is not modelled; only the order `dequeue`, `peek` and `get_all` observe is.
- Dispatch.NeedsIdBranchAsks excludes the state-comparison branch. Its keyword "state comparison" contains no identifier keyword, so without an identifier that request falls through to the generic search; `AskIff` states the general rule.
- Declared but never implemented, and so not modelled: the PAUSED workflow status, PARALLEL and CONDITIONAL step types, `AmbiguousRouteError`, and a "retry" branch in the engine. A "retry" step stays remaining, as the code leaves it.
