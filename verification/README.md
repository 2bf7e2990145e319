# Verified model of the agent control plane

This project models the decision core of a fail-closed control plane for agent missions, and proves
what the control plane is for: that an execution is never launched twice, that a certified story
stays certified by a coherent dossier, that a gated group of commits is promoted exactly or not at
all, and that the checks between these steps mean what they say.

`dafny verify dfyconfig.toml` checks the whole project. Files and what they model:

- `execution_state.dfy`, `execution_recovery.dfy`, `execution_protocol.dfy`,
  `execution_outcomes.dfy`, `execution_lifecycle.dfy`, `execution_service.dfy`:
  the restart-safe execution of requests. The protocol is a state machine of clients with stale
  snapshots over one persisted ledger; the service classes are proved to be runs of it.
- `json.dfy`, `output_schema.dfy`, `schema_transport.dfy`, `schema_validity.dfy`, `schema_results.dfy`,
  `schema_exactness.dfy`:
  the projection of role schemas, with a meaning for JSON Schema Draft 2020-12 (Core, sections 8.2.3.1, 10.2 and 10.3;
  Validation, section 6) and for RFC 6901 pointers.
- `repository_paths.dfy`, `scope_conflicts.dfy`: canonical paths, scope overlap, and the gate's path
  checks.
- `dag.dfy`, `readiness.dfy`: cycle search and readiness.
- `certification.dfy`, `certification_integrity.dfy`, `certification_agreement.dfy`,
  `certification_service.dfy`, `certification_renewal.dfy`, `certification_decisions.dfy`, `dossier_soundness.dfy`,
  `verdict_in_words.dfy`: the certification rules, the independently written dossier check, what both mean, how
  far they agree, and how long a certified request stays one.
- `project_records.dfy`, `story_lifecycle.dfy`, `control_loop.dfy`: the control loop, on values and on
  objects, and the way of a story through it.
- `commit_graph.dfy`, `git_repository.dfy`, `merge_coordinator.dfy`: the merge protocol in a
  repository that others change between any two commands.
- `configuration.dfy`, `incidents.dfy`, `metrics.dfy`, `metrics_meaning.dfy`, `observability.dfy`,
  `execution_reporting.dfy`:
  folds over layers, records and events, and what they say about the executions in the ledger.
- `ordering.dfy`, `stages.dfy`, `domain.dfy`, `wrappers.dfy`: shared definitions.

## What the code does where a promise needs a condition

- At most one launch per execution id needs the repository lock around the store: the store compares
  and then writes, and without serialization two clients can both pass the comparison
  (`AtMostOnceExactlyWhenSerialized`, `RaceLaunchesTwice`). The command line takes that lock.
- Members of `enum` are projected like schemas, so a mapping among them can lose members, and the
  schema that is built refuses it (`ObjectEnumIsNotWeakened`). An enumeration is weakened if and only
  if its members hold nothing to project (`EnumWeakensExactlyWhen`).
- The value of `const` is projected only when the result is built again, which then refuses it
  (`ObjectConstIsProjectedLate`); `BuildIsIdempotent` says when building again changes nothing.
- A `const` beside an `enum` is compared as in Python, where `1 == True`, and a reference is merged with its
  siblings keyword by keyword; both can lose a constraint (`EnumBesideConstIsLost`,
  `ClosedReferenceIsOpened`). Where neither does, nothing is lost but the eleven dropped keywords
  (`BuildIsExact`, with `EnumBesideConstExactlyWhen` and `ClosedInMergeExactlyWhen`).
- `{"$ref": null}` counts as no reference and survives the projection (`NullReferenceIsKept`).
- A certified request can be refused by the dossier check (`LooseWaiverIsRefused`);
  `AcceptedExactlyWhen` says when.
- Git reports success for a member that is already contained and makes no commit; the walk then
  refuses the result (`SameWorkTwiceIsRefused`). That happens if and only if a member is contained in
  the baseline or in an earlier member (`IntegratesUnlessContained`, `Merge`).
- A fast-forward is three commands; if others move the primary between them, it can start from every
  ancestor of the target other than the target, whatever head was gated, but never loses commits
  (`MovesFromExactly`, `FastForward`).
- A reopening may be dated before the resolution it follows (`RecurrenceCanPredateResolution`). Times
  run forwards if and only if no resolved incident with a signal is dated after the evaluation
  (`EvaluationKeepsTimeExactlyWhen`, `ChronologicalExactlyWhen`).
- A terminal record without a start time or a Git state cannot be projected into events. The ledger
  admits it: every refused start leaves one (`RefusedStartIsRecordedButNotProjected`), and from then on
  reading fails for ever (`NeverProjectedAgain`, `Read`). `ProjectedExactlyWhen` says which observations
  keep the ledger readable.

## Modelling conventions

- Hashes are injective: a fingerprint of a ledger or of a record is modelled by what it fingerprints,
  and a commit by its parents and content; a commit that is made is none that was there before. Ids that the model does not recompute, timestamps and
  clocks are parameters.
- Unicode folding of paths is a parameter that keeps the separator structure.
- The contract validator, the identity checks and the case folding of sources are predicates that
  every result holds for.
- Errors are values; a Git command can also end the process, before or after its effect.
- Preconditions state what constructors of the source's own types enforce.

## Model

| member | source | states |
|---|---|---|
| `ExecutionProtocol.AtMostOneLaunch` | src/agentic_engineering_os/application/execution_recovery.py:95-131 | In every run of any number of clients that hold stale snapshots, interleave freely and stop anywhere, the runtime is invoked at most once per execution id, provided each write is compared and performed under the repository lock. |
| `ExecutionProtocol.AtMostOnceExactlyWhenSerialized` | src/agentic_engineering_os/infrastructure/execution_state_store.py:87-96 | In every environment in which anything can be planned, at most one invocation in all runs holds if and only if test and write are serialized. |
| `ExecutionProtocol.RaceLaunchesTwice` | src/agentic_engineering_os/infrastructure/execution_state_store.py:87-96 | In every environment, for everything that can be planned: a run without serialization in which two clients both pass the comparison before either writes, and the same execution is launched twice. |
| `ExecutionProtocol.PersistedLedgersAreValid` | src/agentic_engineering_os/application/execution_state.py:266-287 | Every persisted ledger of every run is sorted, unique by execution id, request id and semantic fingerprint, and lawful record by record. |
| `ExecutionProtocol.StepRaisesPotential` | src/agentic_engineering_os/infrastructure/execution_state_store.py:153-182 | Each change of the ledger strictly raises a potential of it. |
| `ExecutionProtocol.OvertakenSnapshotStaysRefused` | src/agentic_engineering_os/application/execution_state.py:654-692 | A snapshot the ledger has moved on from never returns, so a write computed from it is refused for ever (no ABA). |
| `ExecutionProtocol.RunKeepsOutcomes` | src/agentic_engineering_os/application/execution_recovery.py:95-131 | In every run a concluded or observed record has exactly the one launch that produced its outcome. |
| `ExecutionProtocol.InspectionMatchesHistory` | src/agentic_engineering_os/application/execution_recovery.py:205-247 | In every reachable state restart inspection grants execution only for a request the runtime has never seen and no client is about to send, and a replay or a completed result only after exactly one launch. |
| `ExecutionProtocol.OnlyPlannedWorkIsAccepted` | src/agentic_engineering_os/application/execution_recovery.py:249-297 | Whatever happened since an execution was planned: a prompt that `execute` or `replay_intake` accepts under its id asks for the planned request and work, and `execute` accepts it only for the planned directory and commit. |
| `ExecutionProtocol.NeverPlannedAgain` | src/agentic_engineering_os/application/execution_recovery.py:64-71 | In every later state neither the request of a recorded execution nor the work it asks for is planned as another execution. |
| `ExecutionOutcomes.OutcomesAreTruthful` | src/agentic_engineering_os/application/execution_recovery.py:115-123 | In every run, serialized or not: OBSERVED and VALIDATED only after a runtime that ended cleanly, INTERRUPTED only after one that was cut off, FAILED only after one that was not, and no observation before there is one, nor one of another request, place or executable; a result, with its fingerprint, is kept exactly for what is VALIDATED, and reasons exactly for what is FAILED or INTERRUPTED. |
| `ExecutionProtocol.WriteMovesForward` | src/agentic_engineering_os/infrastructure/execution_state_store.py:153-182 | An authorized write changes what is found under one id, adds a planned record or moves its status strictly forward, and never un-starts an execution. |
| `ExecutionLifecycle.EveryStatusIsReachedInOrder` | src/agentic_engineering_os/infrastructure/execution_state_store.py:153-172 | In every run with serialized writes, every record has come to its status by the whole way: PLANNED, RUNNING, then FAILED or INTERRUPTED, or OBSERVED and only then VALIDATED. |
| `ExecutionLifecycle.PassesTheRest` | src/agentic_engineering_os/infrastructure/execution_state_store.py:153-172 | The same from any reachable state: an execution passes all that is left of the way to the status in which the run ends. |
| `ExecutionLifecycle.RulesInWords` | src/agentic_engineering_os/infrastructure/execution_state_store.py:164-172 | The store lets a status move on to the next one, fail from RUNNING or OBSERVED, be interrupted from RUNNING, and nothing else, each by one operation. |
| `ExecutionRecovery.PlannedRecordIsGenuine` | src/agentic_engineering_os/application/execution_state.py:149-197 | A record that planning builds carries the semantic fingerprint and execution id that validation recomputes from the record alone. |
| `ExecutionRecovery.FreshPlanIsAuthorized` | src/agentic_engineering_os/application/execution_recovery.py:54-93 | A fresh plan over a valid ledger is a write that the store accepts, with a valid result. |
| `ExecutionRecovery.PlansExactlyWhatIsNew` | src/agentic_engineering_os/application/execution_recovery.py:54-93 | `plan` makes a record if and only if no record has the request and none asks for the work, and returns one if and only if it was made for this prompt, binding and executable. |
| `ExecutionRecovery.RunsExactlyWhatWasPlanned` | src/agentic_engineering_os/application/execution_recovery.py:249-297 | `execute` goes ahead if and only if the record is PLANNED, was made for the request and work of the prompt, and every part of the binding names what it was planned for. |
| `ExecutionRecovery.PlanAgainFindsTheRecord` | src/agentic_engineering_os/application/execution_recovery.py:62-66 | Planning the same again returns the record that is there. |
| `ExecutionRecovery.RunIsAuthorizedExactly` | src/agentic_engineering_os/application/execution_recovery.py:106-107 | The RUNNING record is accepted by the store if and only if it has the required shape and the clock has not run back behind its creation. |
| `ExecutionRecovery.ObservationIsAuthorizedExactly` | src/agentic_engineering_os/application/execution_recovery.py:115-131 | Any observation that is bound to its running record is accepted, whatever the runtime reports in it, and no other is. |
| `ExecutionRecovery.IntakeIsAuthorizedExactly` | src/agentic_engineering_os/application/execution_recovery.py:145-160 | The outcome of an intake is accepted if and only if it is no refusal without reasons. |
| `ExecutionRecovery.InspectionVerdicts` | src/agentic_engineering_os/application/execution_recovery.py:205-247 | Every verdict of a restart inspection if and only if what it means: execution at an untouched baseline, replay where the tree is as the runtime left it, a new request where nothing was left behind, the operator for everything else that was started. |
| `ExecutionState.WithRecordFinds` | src/agentic_engineering_os/application/execution_recovery.py:307-310 | Inserting or replacing a record in an ordered ledger changes what is found under its id and under no other. |
| `ExecutionService.LedgerStore.ReplaceAuthorized` | src/agentic_engineering_os/infrastructure/execution_state_store.py:87-96 | The ledger is replaced exactly when the write is authorized for what is persisted; otherwise it is unchanged. |
| `ExecutionService.Service.Plan` | src/agentic_engineering_os/application/execution_recovery.py:54-93 | What `plan` leaves in the store is the plan run of the protocol by a lone client; an error leaves the ledger as it was. |
| `ExecutionService.Service.Execute` | src/agentic_engineering_os/application/execution_recovery.py:95-131 | What `execute` does to the ledger and to the runtime is the run of the protocol; a forbidden retry launches nothing, an uncertain outcome has launched once. |
| `ExecutionService.Service.ReplayIntake` | src/agentic_engineering_os/application/execution_recovery.py:133-162 | What `replay_intake` leaves in the store is the intake run of the protocol; an error leaves the ledger as it was. |
| `ExecutionService.PlanIsProtocolRun` | src/agentic_engineering_os/application/execution_recovery.py:54-93 | A `plan` call is the protocol run prepare, authorize. |
| `ExecutionService.ExecuteIsProtocolRun` | src/agentic_engineering_os/application/execution_recovery.py:95-131 | An `execute` call is the protocol run prepare, authorize, launch, record, authorize. |
| `ExecutionService.IntakeIsProtocolRun` | src/agentic_engineering_os/application/execution_recovery.py:133-162 | A `replay_intake` call is the protocol run prepare, authorize. |
| `ExecutionService.UndisturbedExecutionCompletes` | src/agentic_engineering_os/application/execution_recovery.py:54-162 | Plan, execute with a clean observation of its own, accept at intake: one launch, a VALIDATED record with that observation and result under the planned identity, and no other record changed. |
| `SchemaResults.BuildWeakens` | src/agentic_engineering_os/application/codex_output_schema.py:65-147 | Every instance that satisfies the canonical schema, however deep its references are unfolded, satisfies the built one (supported keywords; enumerations whose members hold nothing to project). |
| `SchemaExactness.BuildIsExact` | src/agentic_engineering_os/application/codex_output_schema.py:29-43 | The built schema accepts exactly the instances that the canonical schema accepts when the eleven dropped keywords are left out of account: no other constraint is lost at any schema position, references followed, where references are compatible with their siblings and constants with an `enum` beside them. |
| `SchemaExactness.ProjectReflects` | src/agentic_engineering_os/application/codex_output_schema.py:87-147 | The same from any schema position: what satisfies the projection satisfies the schema, but for the eleven keywords. |
| `SchemaExactness.MergeReflects` | src/agentic_engineering_os/application/codex_output_schema.py:98-122 | What satisfies the merge of a reference with compatible siblings satisfies both of them. |
| `SchemaExactness.EnumBesideConstExactlyWhen` | src/agentic_engineering_os/application/codex_output_schema.py:139-142 | The `enum` that stands for a `const` says as much as the `enum` beside it if and only if that holds, as JSON, the constant alone. |
| `SchemaExactness.ClosedInMergeExactlyWhen` | src/agentic_engineering_os/application/codex_output_schema.py:117-122 | A closed part of a reference stays closed in the merge if and only if the other part describes no member that it does not describe. |
| `SchemaExactness.EnumBesideConstIsLost` | src/agentic_engineering_os/application/codex_output_schema.py:139-142 | A schema with `const` 1 and `enum` [true] is built into one that accepts 1. |
| `SchemaExactness.ClosedReferenceIsOpened` | src/agentic_engineering_os/application/codex_output_schema.py:98-122 | A reference to a closed schema beside a property is built into a schema that accepts the member that the closed one refuses. |
| `SchemaValidity.ProjectWeakens` | src/agentic_engineering_os/application/codex_output_schema.py:87-147 | The same for any schema position, document and stack of references, with as many unfoldings as references not yet on the stack. |
| `SchemaValidity.MergeWeakens` | src/agentic_engineering_os/application/codex_output_schema.py:98-122 | A reference merged with its siblings accepts whatever both parts accept, including members that only one part describes. |
| `SchemaValidity.AdditionalWeakens` | src/agentic_engineering_os/application/codex_output_schema.py:124-147 | `additionalProperties` beside projected `properties` still describes no more members than before. |
| `SchemaValidity.ConstMeansTheSame` | src/agentic_engineering_os/application/codex_output_schema.py:138-142 | `const` rewritten to a one-element `enum` accepts the same instances. |
| `SchemaValidity.InferredTypeWeakens` | src/agentic_engineering_os/application/codex_output_schema.py:145-147 | The type inferred for an enumeration holds of everything the enumeration accepts. |
| `SchemaResults.BuildIsTransportForm` | src/agentic_engineering_os/application/codex_output_schema.py:65-147 | A built schema has no reference other than `null`, no omitted keyword, no `const` and no untyped enumeration at any schema position; inside enumerations too if and only if every constant that the projection meets is itself in this form. |
| `SchemaResults.BuildIsIdempotent` | src/agentic_engineering_os/application/codex_output_schema.py:65-147 | Building from a built schema changes nothing if and only if every constant at a schema position of the canonical schema, references followed, holds nothing to project. |
| `SchemaResults.BuiltObjectsAreClosed` | src/agentic_engineering_os/application/codex_output_schema.py:171-192 | An instance of a strict object schema has exactly the declared members. |
| `SchemaResults.ObjectEnumIsNotWeakened` | src/agentic_engineering_os/application/codex_output_schema.py:65-147 | A canonical schema with a mapping inside `enum`, the schema that is built from it, and an instance that the one accepts and the other refuses. |
| `SchemaResults.EnumWeakensExactlyWhen` | src/agentic_engineering_os/application/codex_output_schema.py:138-147 | For every enumeration: its projection accepts everything that it accepts if and only if no member holds anything to project. |
| `SchemaResults.CoveredAcceptsAsMuch` | src/agentic_engineering_os/application/codex_output_schema.py:138-147 | One enumeration accepts everything that another accepts if and only if every member of the other equals a member of it. |
| `SchemaResults.ObjectConstIsProjectedLate` | src/agentic_engineering_os/application/codex_output_schema.py:138-142 | A canonical schema with a mapping under `const` whose built schema accepts that value, and the schema built from that, which refuses it. |
| `SchemaResults.NullReferenceIsKept` | src/agentic_engineering_os/application/codex_output_schema.py:98-122 | A schema `{"$ref": null}` is built into itself. |
| `SchemaTransport.TransportFormIsFixed` | src/agentic_engineering_os/application/codex_output_schema.py:87-147 | What is in transport form everywhere is a fixed point of the projection, in any document and on any stack. |
| `SchemaResults.FixedIsTransportForm` | src/agentic_engineering_os/application/codex_output_schema.py:87-147 | Nothing else is a fixed point. |
| `OutputSchema.ProjectNode` | src/agentic_engineering_os/application/codex_output_schema.py:87-147 | The recursion with its loops yields the specified projection for every document set; it terminates by references not yet on the stack, then by size. |
| `OutputSchema.ProjectReference` | src/agentic_engineering_os/application/codex_output_schema.py:98-122 | The `$ref` branch: target expanded, siblings projected, conflicts refused. |
| `OutputSchema.AddSiblings` | src/agentic_engineering_os/application/codex_output_schema.py:116-122 | Siblings are added to the expansion exactly when none contradicts it. |
| `OutputSchema.ProjectObject` | src/agentic_engineering_os/application/codex_output_schema.py:124-147 | The loop over the keywords: each carried keyword projected, `const` rewritten, type inferred, or the error. |
| `OutputSchema.ProjectProperties` | src/agentic_engineering_os/application/codex_output_schema.py:128-137 | `properties` is projected name by name, and must be a mapping. |
| `OutputSchema.ResolveReference` | src/agentic_engineering_os/application/codex_output_schema.py:150-168 | The walk along a local pointer, or the registry lookup, yields the named schema and its document, or the error. |
| `OutputSchema.LocalPointersFollowTokens` | src/agentic_engineering_os/application/codex_output_schema.py:155-164 | A local reference made of encoded tokens resolves to the member the tokens name (RFC 6901, section 4). |
| `OutputSchema.UnescapeInvertsEscape` | src/agentic_engineering_os/application/codex_output_schema.py:157-158 | Decoding a reference token inverts its encoding (RFC 6901, section 3). |
| `ScopeConflicts.OverlapExact` | src/agentic_engineering_os/application/execution_conflict_analyzer.py:190-257 | Overlaps are reported if and only if some file path is allowed by both scopes and forbidden by neither. |
| `ScopeConflicts.VerdictInWords` | src/agentic_engineering_os/application/execution_conflict_analyzer.py:152-236 | In terms of the declared paths: CONFLICT if and only if some file is allowed to both stories; SAFE if and only if none is, both scopes are given, no path is declared twice, and no allowed path is forbidden altogether; and each reason exactly where it applies. |
| `ScopeConflicts.AmbiguousExactly` | src/agentic_engineering_os/application/execution_conflict_analyzer.py:169-187 | A scope is ambiguous if and only if two of its paths have one canonical form, or every file of an allowed path lies under one forbidden path. |
| `ScopeConflicts.ScopeGivenExactly` | src/agentic_engineering_os/application/execution_conflict_analyzer.py:154-169 | A scope is refused as invalid if and only if one of its declared paths is no canonical path. |
| `ScopeConflicts.ExcludesExactly` | src/agentic_engineering_os/application/execution_conflict_analyzer.py:169-187 | A forbidden path excludes an allowed one if and only if it forbids every canonical file of it. |
| `ScopeConflicts.OverlapIsIntersection` | src/agentic_engineering_os/application/execution_conflict_analyzer.py:238-251 | The overlap region of two paths covers exactly the files that both cover. |
| `ScopeConflicts.UnexcludedRegionKeepsFile` | src/agentic_engineering_os/application/execution_conflict_analyzer.py:253-257 | A region that no forbidden path swallows keeps a file that none of them covers: the region itself, or a fresh file inside it. |
| `ScopeConflicts.SharedFileIsReported` | src/agentic_engineering_os/application/execution_conflict_analyzer.py:190-236 | Every shared file lies inside a reported region. |
| `ScopeConflicts.AnalysisIsSymmetric` | src/agentic_engineering_os/application/execution_conflict_analyzer.py:190-236 | The analysis of a pair does not depend on its order. |
| `ScopeConflicts.Analyze` | src/agentic_engineering_os/application/execution_conflict_analyzer.py:67-96 | One result for every two members of a wave and no other, each with the analysis of its pair; no pair twice where members are distinct. |
| `ScopeConflicts.AnalyzeWave` | src/agentic_engineering_os/application/execution_conflict_analyzer.py:78-92 | The same for one wave, in identifier order. |
| `ScopeConflicts.SafeMembersNeverCollide` | src/agentic_engineering_os/application/integration_gate.py:682-756 | Two members whose pair is canonically SAFE and whose diffs stay in scope never change the same path. |
| `ScopeConflicts.ViolatesExactlyWhen` | src/agentic_engineering_os/application/integration_gate.py:651-711 | The gate finds a changed file in violation if and only if the canonical scope of the analysis does not permit it. |
| `ScopeConflicts.DetectPathCollisions` | src/agentic_engineering_os/application/integration_gate.py:713-730 | No finding if and only if no two members share a changed path; each finding names two positions and their shared paths. |
| `ScopeConflicts.RevalidateSafePairs` | src/agentic_engineering_os/application/integration_gate.py:732-756 | No finding if and only if every pair of the order is canonically SAFE. |
| `ScopeConflicts.CanonicallySafeExactlyWhen` | src/agentic_engineering_os/application/integration_gate.py:744-756 | Two members count as SAFE if and only if the last pair about them, in either order, is SAFE. |
| `RepositoryPaths.FreshFileInside` | src/agentic_engineering_os/application/implementer.py:387-407 | Every canonical directory contains canonical files with arbitrarily long fresh names. |
| `RepositoryPaths.SamePathExactlyWhen` | src/agentic_engineering_os/application/implementer.py:387-407 | Accepted paths have one canonical form if and only if they are of one kind and folding makes them equal. |
| `RepositoryPaths.FileRegionIsFilePath` | src/agentic_engineering_os/application/implementer.py:387-407 | A canonical region that is no directory is the path of a file. |
| `RepositoryPaths.AcceptedExactlyWhen` | src/agentic_engineering_os/application/implementer.py:387-400 | A path is accepted if and only if it is clean relative text and walking it inside the repository goes down to exactly what it names: it neither leaves the repository nor is an alias. |
| `Dag.FindCycle` | src/agentic_engineering_os/application/dag_validator.py:190-226 | Terminates; the result is empty if and only if the graph is acyclic, and otherwise distinct nodes that form a closed walk. |
| `Dag.SearchAll` | src/agentic_engineering_os/application/dag_validator.py:200-226 | The outer loop: no cycle reported means acyclic, a reported one is real. |
| `Dag.SearchFrom` | src/agentic_engineering_os/application/dag_validator.py:204-225 | One search with the explicit stack keeps every finished node ranked above its dependents. |
| `Dag.BuildAdjacency` | src/agentic_engineering_os/application/dag_validator.py:194-198 | The adjacency lists are sorted, closed, and have exactly the given edges. |
| `Dag.FinishingMeansAcyclic` | src/agentic_engineering_os/application/dag_validator.py:190-226 | A graph whose edges all lead to lower ranks has no closed walk. |
| `Dag.Build` | src/agentic_engineering_os/application/dag_validator.py:41-132 | A snapshot if and only if the stories form a valid DAG, with exactly their nodes and edges in order; each error names exactly what it says. |
| `Dag.Duplicates` | src/agentic_engineering_os/application/dag_validator.py:180-188 | Exactly the values that occur more than once. |
| `Readiness.SomeStoryIsReady` | src/agentic_engineering_os/application/readiness_engine.py:159-200 | On a valid DAG where nothing else hinders the uncertified stories, some story is classified READY unless none is pending. |
| `Readiness.FollowDependencies` | src/agentic_engineering_os/application/readiness_engine.py:159-200 | Following uncertified dependencies ends in a story whose dependencies are all certified. |
| `Readiness.RoundsCertifyEverything` | src/agentic_engineering_os/application/readiness_engine.py:75-81 | Certifying the READY set as often as there are pending stories certifies all of them. |
| `Readiness.RoundsWithinStoryCount` | src/agentic_engineering_os/application/readiness_engine.py:75-81 | As many rounds as stories suffice. |
| `Readiness.RoundsKeepClosure` | src/agentic_engineering_os/application/readiness_engine.py:159-200 | No round certifies a story before its dependencies. |
| `Readiness.ClassesInWords` | src/agentic_engineering_os/application/readiness_engine.py:159-200 | READY are exactly the planned or ready stories with their approval all of whose dependencies are certified stories; the other classes likewise. |
| `Readiness.RoundsRespectApproval` | src/agentic_engineering_os/application/readiness_engine.py:159-200 | However many rounds are certified, a story without its approval, or not planned or ready, stays as it is. |
| `CertificationAgreement.CheckAgreesWithRules` | src/agentic_engineering_os/application/certification_integrity.py:37-289 | When the certification rules yield CERTIFIED, the separately written dossier check raises an issue if and only if it is one of the excepted ones: a certifier that is not attributable, a waived gate required twice, a reference of a waived gate that is not certified evidence about the story. |
| `CertificationAgreement.AcceptedExactlyWhen` | src/agentic_engineering_os/application/certification_integrity.py:37-289 | A certified dossier passes the check if and only if the certifier is attributable, no waived gate is required twice, and every reference of a waived gate is evidence about the story that the certification rests on. |
| `CertificationAgreement.LooseWaiver` | src/agentic_engineering_os/application/certification_integrity.py:203-216 | A concrete request, with a commit that certifications may have, that the rules certify and the check objects to. |
| `CertificationAgreement.UsedAboutStory` | src/agentic_engineering_os/application/certification_service.py:297-401 | Used evidence about the story is exactly what a backed gate or the human decision refers to. |
| `CertificationAgreement.PassedIsProven` | src/agentic_engineering_os/application/certification_integrity.py:102-125 | A criterion that passes is positively proven in the eyes of the check. |
| `CertificationService.Certify` | src/agentic_engineering_os/application/certification_service.py:75-204 | The result reports the rules and its dossier is coherent; each error means what it says; for a request the rules certify, success or the dossier error is decided by what the caller can see beforehand. |
| `CertificationService.LooseWaiverIsRefused` | src/agentic_engineering_os/application/certification_service.py:178-204 | For that request, where the contract accepts its certification under the given id and time, `certify` answers that the dossier is not coherent. |
| `CertificationService.Evaluate` | src/agentic_engineering_os/application/certification_service.py:119-176 | Every part of the certification is what the rules say of the request. |
| `CertificationService.NotesDecide` | src/agentic_engineering_os/application/certification_service.py:158-176 | From the exact lists of failures and blockers, the verdict: a proven failure dominates uncertainty, uncertainty dominates success. |
| `CertificationService.Evaluation.EvaluateAcceptance` | src/agentic_engineering_os/application/certification_service.py:242-295 | Adds exactly the failures, blockers and evidence of the criteria, and returns the verdict on each. |
| `CertificationService.Evaluation.EvaluateGates` | src/agentic_engineering_os/application/certification_service.py:297-353 | Adds exactly the failures, blockers, evidence and waivers of the required gates, and returns the result of each. |
| `CertificationService.Evaluation.EvaluateHumanApproval` | src/agentic_engineering_os/application/certification_service.py:355-401 | Adds exactly the failure, blocker and evidence of the human decision, and returns what is recorded. |
| `CertificationService.ResolveEvidence` | src/agentic_engineering_os/application/certification_service.py:403-434 | References resolve if and only if there are some, all distinct, each naming one valid, fresh evidence of the subject at the commit. |
| `CertificationRenewal.CertifiedWhileCurrent` | src/agentic_engineering_os/application/certification_service.py:403-461 | A certified request put again for another commit, or with more evidence stale, is certified if and only if all evidence it needs is still current, and blocked otherwise: nothing that merely expires rejects a story. |
| `CertificationRenewal.CertifiedWithAuthority` | src/agentic_engineering_os/application/certification_service.py:125-133 | A certified request with other authority is certified if and only if the authority covers every required gate that does not pass by itself and nothing else, and blocked otherwise. |
| `CertificationDecisions.GateDecides` | src/agentic_engineering_os/application/certification_service.py:297-353 | From a certified request, only the result of one passing required gate is changed: FAIL rejects, UNKNOWN blocks, NOT_APPLICABLE blocks unless the context allows it. |
| `CertificationDecisions.AnswerDecides` | src/agentic_engineering_os/application/certification_service.py:242-295 | From a certified request, only the answer about one mandatory criterion is changed: any other than PASS blocks, and FAIL too, because its checks are positive. |
| `CertificationDecisions.NegativeCheckRejects` | src/agentic_engineering_os/application/certification_service.py:242-295 | From a certified request, a mandatory criterion answered FAIL with one check turned negative rejects the story. |
| `CertificationDecisions.OptionalAnswerDecidesNothing` | src/agentic_engineering_os/application/certification_service.py:242-295 | An answer about a criterion that is not mandatory leaves a certified request certified. |
| `CertificationDecisions.DecisionDecides` | src/agentic_engineering_os/application/certification_service.py:355-401 | From a certified request, only the required human decision and its record are changed: both negative reject, a contradiction blocks. |
| `CertificationDecisions.UnrequiredDecisionDecidesNothing` | src/agentic_engineering_os/application/certification_service.py:355-401 | Where no decision is required, neither its record nor its evidence changes the verdict. |
| `CertificationDecisions.FailedGateRejects` | src/agentic_engineering_os/application/certification_service.py:165-172 | A required gate that fails on references that hold rejects the story, whatever else is in doubt. |
| `VerdictInWords.VerdictInWords` | src/agentic_engineering_os/application/certification_service.py:75-204 | A request is CERTIFIED if and only if every mandatory criterion is met by positive checks, every required gate is open, the required human has decided in favour and no waiver is left over; REJECTED if and only if a criterion, a gate or the human is proven to be against it; BLOCKED otherwise. |
| `VerdictInWords.UsedInWords` | src/agentic_engineering_os/application/certification_service.py:165-204 | A certification refers to exactly the evidence looked at with success: for an answer that it bears out, for a required gate, or for the human decision. |
| `VerdictInWords.RecordedInWords` | src/agentic_engineering_os/application/certification_service.py:242-353 | For each criterion and required gate a certification records the result that the one answer, or the one valid gate, gives, and UNKNOWN where there is none. |
| `VerdictInWords.HumanRecordInWords` | src/agentic_engineering_os/application/certification_service.py:355-401 | The human record names the evidence of the context; its result is there exactly where that is a usable decision, PASS exactly when decision and story agree in favour, FAIL exactly when they agree against it. |
| `CertificationIntegrity.CertifiedDossierIssues` | src/agentic_engineering_os/application/certification_integrity.py:37-224 | Exactly the issues that hold of a certified dossier; none for any other certification. |
| `DossierSoundness.CoherentMeansSound` | src/agentic_engineering_os/application/certification_integrity.py:37-289 | A certified dossier has no issue if and only if it proves all that the story demands: each reference is to the one fitting piece of evidence, each mandatory criterion passed on positive checks, each required gate on certified evidence of the story or by authority, and the human required decided so. |
| `CertificationIntegrity.CheckReferences` | src/agentic_engineering_os/application/certification_integrity.py:66-95 | Exactly the issues about referenced evidence. |
| `CertificationIntegrity.CheckAcceptance` | src/agentic_engineering_os/application/certification_integrity.py:96-125 | Exactly the issues about acceptance criteria. |
| `CertificationIntegrity.CheckAuthority` | src/agentic_engineering_os/application/certification_integrity.py:126-143 | Exactly the issues about persisted waivers. |
| `CertificationIntegrity.CheckGates` | src/agentic_engineering_os/application/certification_integrity.py:144-216 | Exactly the issues about required gates and their evidence. |
| `CertificationIntegrity.CheckHumanApproval` | src/agentic_engineering_os/application/certification_integrity.py:227-289 | Exactly the issue, if any, about the human approval. |
| `Certification.IndexById` | src/agentic_engineering_os/application/certification_integrity.py:298-305 | The index holds, under each id, all items with that id in their order. |
| `ProjectRecords.RunKeepsBacking` | src/agentic_engineering_os/application/control_loop.py:90-423 | In every run of control-loop operations every CERTIFIED story has a CERTIFIED certification with a coherent dossier. |
| `ProjectRecords.DossierSurvives` | src/agentic_engineering_os/application/control_loop.py:90-423 | Every coherent certified dossier survives every operation, for the story as it is afterwards. |
| `ProjectRecords.CertifiedForGood` | src/agentic_engineering_os/application/control_loop.py:90-423 | In every run a CERTIFIED story stays CERTIFIED, backed by the certification that backed it before. |
| `StoryLifecycle.CertifiedOnlyTheWholeWay` | src/agentic_engineering_os/application/state_transition_service.py:13-46 | In every run of operations, a story that is added, or proposed at the start, and certified at the end has been PLANNED, READY, IN_PROGRESS, IMPLEMENTED, in TESTING, in REVIEW and in CERTIFICATION, in this order. |
| `StoryLifecycle.RejectedStartsAgain` | src/agentic_engineering_os/application/state_transition_service.py:13-46 | In every run a rejected story becomes certified only by REMEDIATION_REQUIRED and then every state from READY on. |
| `StoryLifecycle.TransitionsInWords` | src/agentic_engineering_os/application/state_transition_service.py:13-46 | A transition is declared if and only if the story is open and goes on to the next state of its way, is cancelled, is blocked before it is implemented, or is rejected from testing on. |
| `StoryLifecycle.CanBeCertified` | src/agentic_engineering_os/application/state_transition_service.py:13-46 | A story that has its dossier and is not cancelled can go the rest of its way and be certified. |
| `StoryLifecycle.ApprovedOnlyByHumans` | src/agentic_engineering_os/application/control_loop.py:90-423 | In every run of operations the approval of a story changes only by a valid decision of an attributable human in favour of it, which is on record. |
| `StoryLifecycle.RecordsOnlyGrow` | src/agentic_engineering_os/application/control_loop.py:90-423 | In every run evidence, gates and certifications are only appended, and ids stay distinct. |
| `StoryLifecycle.CertifiedIsProven` | src/agentic_engineering_os/application/control_loop.py:90-423 | In every run a story that is certified at the end, and not certified without proof at the start, has a certification that everything on record proves, criterion by criterion and gate by gate. |
| `ProjectRecords.EvidenceKeepsDossier` | src/agentic_engineering_os/application/evidence_recorder.py:114-166 | Evidence under a new id breaks no coherent dossier. |
| `ProjectRecords.GateKeepsDossier` | src/agentic_engineering_os/application/control_loop.py:162-192 | A gate under a new id breaks no coherent dossier. |
| `ProjectRecords.ApprovalKeepsDossier` | src/agentic_engineering_os/application/human_approval_service.py:29-87 | A decision that can be applied changes nothing in a story with a coherent dossier. |
| `ControlLoop.Loop.Session` | src/agentic_engineering_os/application/control_loop.py:90-423 | Any sequence of calls is a run of enabled operations, so every certified story stays backed. |
| `ControlLoop.Loop.ApplyHumanApproval` | src/agentic_engineering_os/application/control_loop.py:90-121 | Refused: nothing that existed has changed. Done: the store holds the outcome of the enabled operation. A decision that can be applied is refused only by the store. |
| `ControlLoop.Loop.RecordEvidence` | src/agentic_engineering_os/application/control_loop.py:128-160 | The same for recorded evidence. |
| `ControlLoop.Loop.EvaluateGate` | src/agentic_engineering_os/application/control_loop.py:162-192 | The same for evaluated gates. |
| `ControlLoop.Loop.CertifyUserStory` | src/agentic_engineering_os/application/control_loop.py:242-312 | The same for certifications; an exact replay returns the persisted certification and writes nothing. |
| `ControlLoop.Loop.AddUserStories` | src/agentic_engineering_os/application/control_loop.py:314-363 | The same for new stories, all of which are copies. |
| `ControlLoop.Loop.TransitionUserStory` | src/agentic_engineering_os/application/control_loop.py:365-423 | The same for transitions. |
| `ControlLoop.Loop.ResolveTransitionContext` | src/agentic_engineering_os/application/control_loop.py:470-538 | A promotion is authorized if and only if its commit has exactly one certification of the story, certified and without an issue. |
| `ControlLoop.CandidateStory` | src/agentic_engineering_os/application/control_loop.py:462-467 | The copy has the same value and shares no object that can change. |
| `ControlLoop.RequireUniqueStory` | src/agentic_engineering_os/application/control_loop.py:541-557 | The index of the only story with the id, or that there is none. |
| `ControlLoop.StateStore.Save` | src/agentic_engineering_os/infrastructure/project_state_store.py:168-205 | Writes a valid candidate over the state the writer has read; any refusal leaves the stored state. |
| `ControlLoop.ApplyApproval` | src/agentic_engineering_os/application/human_approval_service.py:29-87 | The decision is applied exactly when it is attributable and applicable; otherwise the approval is unchanged. |
| `ControlLoop.Record` | src/agentic_engineering_os/application/evidence_recorder.py:99-166 | Evidence is appended exactly when the observation is traceable, the id new and the result valid. |
| `ControlLoop.RecordedIsTraceable` | src/agentic_engineering_os/application/evidence_recorder.py:99-247 | Evidence can be recorded if and only if its observation says where it comes from, as its kind demands; so a recorded Git state has a commit, a recorded command its exit code, and a recorded human decision an attributable human. |
| `ControlLoop.EvaluateTransition` | src/agentic_engineering_os/application/state_transition_service.py:213-290 | No refusal if and only if the transition is declared, its preconditions proven, a promotion authorized, and for READY every dependency certified; and otherwise what is refused and why, dependency by dependency. |
| `ControlLoop.DependencyRefusals` | src/agentic_engineering_os/application/state_transition_service.py:318-361 | Every dependency is named in the refusal exactly for what is wrong with it: not known, in no known state, or not certified. |
| `ControlLoop.ReadyExactlyWhen` | src/agentic_engineering_os/application/state_transition_service.py:225-293 | A story may become READY if and only if it comes from PLANNED, BLOCKED or REMEDIATION_REQUIRED, its preconditions are proven, and the context knows every dependency as CERTIFIED. |
| `ControlLoop.PromotedExactlyWhen` | src/agentic_engineering_os/application/state_transition_service.py:266-283 | A story is promoted if and only if it is in CERTIFICATION, its preconditions are proven, and the authorization names it, the very commit and a certification. |
| `ControlLoop.ApplyTransition` | src/agentic_engineering_os/application/state_transition_service.py:176-210 | An allowed transition changes the status and nothing else. |
| `MergeCoordinator.Coordinator.Merge` | src/agentic_engineering_os/application/merge_coordinator.py:115-357 | However others interfere and wherever the process ends: at most one move of the primary, only to a commit that merges all members in order, from the gated baseline unless others moved the primary. When nobody interferes: a merge leaves the promoted state, with every member the completed work of its assignment in the registry, repeating it is recognised without a Git write, abandoned staging is never promoted, a result says that the gate failed or is stale, a member does not match or the primary has drifted or is dirty if and only if that is the first thing not in order, a merge in order fails only by conflicts and overlaps among the members, and, without a conflict, succeeds if and only if no member is contained in the baseline or in an earlier member. |
| `MergeCoordinator.Coordinator.Admit` | src/agentic_engineering_os/application/merge_coordinator.py:115-225 | The checks before anything is prepared, without a Git write: an early refusal names the first thing that is not in order, a repeated merge is recognised, and what is admitted is at the gated baseline, clean and matched. |
| `MergeCoordinator.MatchedMeansDelivered` | src/agentic_engineering_os/application/merge_coordinator.py:514-535 | The members match the registry if and only if each is the completed result of its assignment, on the mission, generation, baseline and story of the gate. |
| `MergeCoordinator.Coordinator.Rerun` | src/agentic_engineering_os/application/merge_coordinator.py:115-357 | Any number of reruns, each ending anywhere, promote only exact integrations, and at most once if nobody else moves the primary. |
| `MergeCoordinator.Coordinator.IsExactIntegrationSequence` | src/agentic_engineering_os/application/merge_coordinator.py:590-605 | The backward walk accepts exactly the left folds of two-parent merges over the members. |
| `MergeCoordinator.Coordinator.Stage` | src/agentic_engineering_os/application/merge_coordinator.py:240-272 | Without interference the staged head ends a run of member merges; when all is in order only a conflict ends it early. |
| `MergeCoordinator.Coordinator.Promote` | src/agentic_engineering_os/application/merge_coordinator.py:274-357 | One fast-forward, only of an exact integration; a refusal found before it has changed nothing. |
| `MergeCoordinator.Coordinator.RecognizeMerged` | src/agentic_engineering_os/application/merge_coordinator.py:537-588 | Recognition requires the exact promoted commit, and succeeds on every state a merge leaves. |
| `MergeCoordinator.Coordinator.PrepareIntegrationResource` | src/agentic_engineering_os/application/merge_coordinator.py:607-640 | A new worktree at the baseline or a pristine one; a branch with staged merges is refused. |
| `MergeCoordinator.Coordinator.PreMergeDrift` | src/agentic_engineering_os/application/merge_coordinator.py:642-673 | Without interference it reports nothing if and only if everything it checks is in order. |
| `MergeCoordinator.Coordinator.PrePromotionDrift` | src/agentic_engineering_os/application/merge_coordinator.py:675-699 | Reports nothing exactly on what it checks being in order. |
| `MergeCoordinator.Coordinator.Assignments` | src/agentic_engineering_os/application/merge_coordinator.py:514-535 | The members' assignments, if and only if all of them match the gate. |
| `MergeCoordinator.PromotedOnlyOnce` | src/agentic_engineering_os/application/merge_coordinator.py:304-309 | After a promotion the primary is no longer at the gated baseline. |
| `GitRepository.Repository.FastForward` | src/agentic_engineering_os/infrastructure/git_adapter.py:580-594 | Moves the primary at most once, only forward to the commit, and only from a commit that the three commands can move it from; that is the expected head unless others move the primary between the commands. |
| `GitRepository.MovesFromExactly` | src/agentic_engineering_os/infrastructure/git_adapter.py:585-594 | The commits that a fast-forward can start from: the expected head alone unless others move the primary; if they do, exactly the ancestors of the target other than the target, whatever was expected. |
| `GitRepository.Repository.MergeNoFf` | src/agentic_engineering_os/infrastructure/git_adapter.py:543-565 | A merge commit with the head and the member as parents, no change for a contained member, or a conflict. |
| `CommitGraph.IntegratesLast` | src/agentic_engineering_os/application/merge_coordinator.py:590-605 | One step of the walk: the last member is the second parent and the rest is integrated by the first. |
| `CommitGraph.IntegrationIsUnique` | src/agentic_engineering_os/application/merge_coordinator.py:590-605 | A commit integrates at most one list of members: no part of it and no other order. |
| `CommitGraph.PartialIsNotWhole` | src/agentic_engineering_os/application/merge_coordinator.py:274-289 | Staging that stopped early is not an integration of all members. |
| `CommitGraph.StagingIntegratesExactly` | src/agentic_engineering_os/application/merge_coordinator.py:240-289 | A staged result is exact if and only if no member was already contained in what was merged before it. |
| `CommitGraph.IntegratesUnlessContained` | src/agentic_engineering_os/application/merge_coordinator.py:240-289 | A staged result is exact if and only if no member is contained in the baseline or in an earlier member, which a caller can see before the merge. |
| `CommitGraph.HeadContains` | src/agentic_engineering_os/application/merge_coordinator.py:240-289 | A staged head contains, of the commits that were there before, exactly what the baseline and the members merged so far contain. |
| `CommitGraph.SameWorkTwiceIsRefused` | src/agentic_engineering_os/application/merge_coordinator.py:240-289 | A concrete group that every staging run merges and the walk refuses: the same work twice. |
| `CommitGraph.IntegrationContains` | src/agentic_engineering_os/application/merge_coordinator.py:590-605 | An integration contains its baseline and every member. |
| `CommitGraph.AncestryIsAntisymmetric` | src/agentic_engineering_os/infrastructure/git_adapter.py:435-439 | No two commits contain each other. |
| `Configuration.ResolvedIsStrictest` | src/agentic_engineering_os/application/configuration_resolver.py:342-467 | For each key that is no invariant the resolved value is the strictest of the hard value, of what any of the six layers asks for, and of the machine cap. |
| `Configuration.EarlierLayersBind` | src/agentic_engineering_os/application/configuration_resolver.py:395-420 | A directive that asks for less than the hard value, or than a directive of an earlier layer, is rejected and reported. |
| `Configuration.RejectedForCause` | src/agentic_engineering_os/application/configuration_resolver.py:395-420 | What is rejected asks for less than the hard value, or than a directive of a layer that is no later. |
| `Configuration.GuardsStand` | src/agentic_engineering_os/application/configuration_resolver.py:92-103 | No layer and no hard policy can turn a guard off or allow arbitrary executables, and every directive that tries is reported as against an invariant. |
| `Configuration.OperatorEarlyWhenAsked` | src/agentic_engineering_os/application/configuration_resolver.py:407-430 | Early involvement of the operator is required if and only if some layer asks for it. |
| `Configuration.WithinHardSafety` | src/agentic_engineering_os/application/configuration_resolver.py:501-518 | In the fields of the hard policy: no limit is exceeded, nothing more may be written, and no less is verified. |
| `Configuration.OrderMakesNoDifference` | src/agentic_engineering_os/application/configuration_resolver.py:376-430 | The order of layers and directives makes no difference to the values. |
| `Configuration.InvariantsNeverMove` | src/agentic_engineering_os/application/configuration_resolver.py:573-583 | No directive moves an invariant key. |
| `Configuration.MoreNeverLoosens` | src/agentic_engineering_os/application/configuration_resolver.py:573-600 | Adding directives never loosens any key. |
| `Configuration.EachIsDecidedOnce` | src/agentic_engineering_os/application/configuration_resolver.py:573-600 | Each directive is accepted or rejected, never both, and the rejected ones are as many as ask for less than the hard value or an earlier directive. |
| `Configuration.AcceptedUnlessTooLoose` | src/agentic_engineering_os/application/configuration_resolver.py:573-617 | A directive is rejected if and only if it asks for less than the hard value or an earlier directive for its key does, or for any change of an invariant key. |
| `Configuration.RejectedIsLooser` | src/agentic_engineering_os/application/configuration_resolver.py:573-600 | What is rejected was asked for, is not what the key ends at, and carries the reason of its kind of key. |
| `Configuration.Resolve` | src/agentic_engineering_os/application/configuration_resolver.py:376-420 | The layers in their order yield the settled values, the rejections in order, and for each value the authority and source of the hard policy, of the earliest layer that asks for it, or of the machine. |
| `Configuration.Resolution.ApplyLayer` | src/agentic_engineering_os/application/configuration_resolver.py:573-600 | One layer continues the values, rejections and attributions of the directives before it. |
| `Configuration.StrictnessIsAnOrder` | src/agentic_engineering_os/application/configuration_resolver.py:602-617 | Being at least as restrictive is a total order on the values of each key. |
| `Configuration.StricterPermitsLess` | src/agentic_engineering_os/application/configuration_resolver.py:602-617 | A setting is at least as restrictive as another if and only if it permits nothing that the other does not. |
| `Incidents.ReevaluationChangesNothing` | src/agentic_engineering_os/application/incident_manager.py:52-88 | Evaluating again with the records of an assessment as prior ones changes no record. |
| `Incidents.CountersCount` | src/agentic_engineering_os/application/incident_manager.py:236-247 | Over every life of a record: occurrences = reopens + 1, resolutions = reopens + 1 if resolved, revision = length of the chain. |
| `Incidents.OpenedForItsReasons` | src/agentic_engineering_os/application/incident_manager.py:52-88 | A new or recurring incident carries the reasons of its signal alone and is dated now; a known one is not touched. |
| `Incidents.CriticalAtOnce` | src/agentic_engineering_os/application/incident_manager.py:236-247 | Exactly four kinds of incident recommend an emergency block while open, acknowledged or not. |
| `Incidents.ChainIsUnbroken` | src/agentic_engineering_os/application/incident_manager.py:90-188 | Revision by revision the chain names its predecessor, one identity and one time of opening. |
| `Incidents.EscalationFollowsHistory` | src/agentic_engineering_os/application/incident_manager.py:90-188 | Over every life of a record, its state and escalation follow from its severity and from whether an operator has acknowledged it since it was last opened; nothing is resolved twice. |
| `Incidents.AcknowledgedExactlyWhen` | src/agentic_engineering_os/application/incident_manager.py:90-126 | An acknowledgement succeeds if and only if it names the open incident and is not dated back; the record then names the operator and the time, and changes nothing else. |
| `Incidents.ResolvedExactlyWhen` | src/agentic_engineering_os/application/incident_manager.py:128-188 | A resolution succeeds if and only if it names the open incident, is dated now, exactly one current diagnosis says that it is back to normal, and no signal says otherwise; the record then names the operator, the source and the time. |
| `Incidents.ChronologicalExactlyWhen` | src/agentic_engineering_os/application/incident_manager.py:243-247 | The times of a chain run forwards if and only if no recurrence is evaluated before the resolution it follows. |
| `Incidents.EvaluationKeepsTimeExactlyWhen` | src/agentic_engineering_os/application/incident_manager.py:52-88 | An evaluation keeps the times of all records running forwards if and only if no resolved incident that it reopens is dated after it. |
| `Incidents.ReopeningKeepsTimeExactlyWhen` | src/agentic_engineering_os/application/incident_manager.py:243-247 | A reopening keeps times running forwards if and only if it is not dated before the record it reopens. |
| `Incidents.LinkKeepsTime` | src/agentic_engineering_os/application/incident_manager.py:90-188 | No acknowledgement and no resolution of a life is dated before the record it follows; only a reopening can be. |
| `Incidents.RecurrenceCanPredateResolution` | src/agentic_engineering_os/application/incident_manager.py:243-247 | A concrete life, accepted by all checks, that is resolved at 10 and reopened at 5. |
| `Incidents.Evaluate` | src/agentic_engineering_os/application/incident_manager.py:52-88 | Exactly the next record of each incident, and the incidents that were known already, or a refusal for a foreign scope, an invalid record, or more records than an assessment may hold. |
| `Incidents.RefusesExactlyWhen` | src/agentic_engineering_os/application/incident_manager.py:52-88 | An evaluation is refused if and only if some record is of another scope, some signal lacks what it takes to open or reopen its incident (reasons, sources, a time not before the first opening), or more than 256 incidents would be open. |
| `Incidents.RecordsAreComplete` | src/agentic_engineering_os/application/incident_manager.py:52-88 | Every record of every life has reasons and sources, and is not dated before the opening of its incident. |
| `Incidents.EvaluationProduces` | src/agentic_engineering_os/application/incident_manager.py:52-88 | Evaluation yields only records that the lifecycle operations produce. |
| `Incidents.MergeSignals` | src/agentic_engineering_os/application/incident_manager.py:306-315 | One signal for each incident id, with the reasons and bounded sources of all its signals. |
| `Incidents.SourcesAreJoined` | src/agentic_engineering_os/application/incident_manager.py:306-315 | Where nothing has to be bounded, the sources of an incident are those of all its signals. |
| `Metrics.AcceptanceIgnoresOrder` | src/agentic_engineering_os/application/metrics_engine.py:360-395 | Whether a corpus is accepted does not depend on the order of its events. |
| `Metrics.SnapshotIgnoresOrder` | src/agentic_engineering_os/application/metrics_engine.py:95-124 | Every permutation of an accepted corpus is accepted and yields the identical snapshot. |
| `Metrics.ValidateCorpus` | src/agentic_engineering_os/application/metrics_engine.py:360-395 | No refusal if and only if the corpus is within its limits, of one project, with distinct ids. |
| `Metrics.Compute` | src/agentic_engineering_os/application/metrics_engine.py:95-124 | Incomplete, refused, or the snapshot of the selected events in key order. |
| `Metrics.LifecyclePartitions` | src/agentic_engineering_os/application/metrics_engine.py:522-586 | Groups = durations + open groups + other diagnostics; group sizes sum to the source count; no duration is negative. |
| `Metrics.ClosedLifecyclesBalance` | src/agentic_engineering_os/application/metrics_engine.py:522-586 | Where nothing is open and nothing is diagnosed, starts, ends and durations are equally many. |
| `Metrics.ClosedMeansBalanced` | src/agentic_engineering_os/application/metrics_engine.py:175-266 | Across the two tables the snapshot is computed from: in a closed lifecycle the counter of starts equals the sum of the counters of outcomes and the number of durations. |
| `Metrics.GatesShareOut` | src/agentic_engineering_os/application/metrics_engine.py:221-255 | The gate samples are the numbers of gates that passed, failed and are unknown, share out all gate events, and are unavailable if and only if some outcome is unclassified. |
| `MetricsMeaning.CountedByItsCounter` | src/agentic_engineering_os/application/metrics_engine.py:49-89 | Every event adds to at most one counter, which its kind and operation determine; only a timeout adds to a second one. |
| `MetricsMeaning.CountersShareOutEvents` | src/agentic_engineering_os/application/metrics_engine.py:175-217 | The values of different counters add up to the number of events that they count: no event is counted twice or left out. |
| `MetricsMeaning.AcceptedInWords` | src/agentic_engineering_os/application/metrics_engine.py:360-395 | A corpus is accepted if and only if it is of one project, no id occurs twice, and it has at most 10000 events and names at most 1024 missions, stories, executions and assignments each. |
| `MetricsMeaning.ScopesNarrow` | src/agentic_engineering_os/application/metrics_engine.py:398-418 | The widest scope selects the events of the project, and each field that is given selects, from what is selected without it, the events that agree. |
| `MetricsMeaning.SelectedInOrder` | src/agentic_engineering_os/application/metrics_engine.py:353-357 | Selected events are in the order of time, at equal times starts first, and then in the order of ids. |
| `MetricsMeaning.TogetherInWords` | src/agentic_engineering_os/application/metrics_engine.py:589-618 | Which events belong to one lifecycle: always of one mission, generation and story, and of one execution and role, or of one worktree assignment. |
| `MetricsMeaning.DiagnosedExactlyWhen` | src/agentic_engineering_os/application/metrics_engine.py:522-586 | A diagnostic is reported if and only if the starts and ends of some lifecycle deserve it, and it names the first events of that lifecycle. |
| `MetricsMeaning.ActiveMeansOpen` | src/agentic_engineering_os/application/metrics_engine.py:522-586 | The active lifecycles are those with one start and no end; they are diagnosed, except for worktrees. |
| `Metrics.DurationsSpan` | src/agentic_engineering_os/application/metrics_engine.py:522-586 | Every duration is the time from the one start of a lifecycle to its one end. |
| `Metrics.ComputeLifecycle` | src/agentic_engineering_os/application/metrics_engine.py:522-586 | The pass with its dictionary of groups yields the specified durations, open count and diagnostics. |
| `Metrics.Summarize` | src/agentic_engineering_os/application/metrics_engine.py:458-481 | The summary of durations, with count x minimum <= total <= count x maximum. |
| `Observability.CodexMetricsAgreeWithLedger` | src/agentic_engineering_os/application/execution_observability.py:62-130 | If the stored Codex events only restate projected lifecycle keys, in however many copies, the Codex counters equal the counts of terminal statuses, and the Codex lifecycle shows nothing open, ambiguous or orphaned, and diagnoses as many executions as end before they start. |
| `Observability.StartedCountsTerminals` | src/agentic_engineering_os/application/execution_observability.py:62-130 | The started counter is the number of terminal records in scope. |
| `Observability.OutcomesCountStatuses` | src/agentic_engineering_os/application/execution_observability.py:62-130 | The completed, failed and interrupted counters are the numbers of records with the statuses. |
| `Observability.CodexLifecycleIsClosed` | src/agentic_engineering_os/application/metrics_engine.py:258-266 | Every selected Codex lifecycle has one start and one end; durations and diagnostics are as many as the terminal records in scope, and the diagnostics as many as those of them that end before they start. |
| `Observability.DurationsAreRecords` | src/agentic_engineering_os/application/metrics_engine.py:522-586 | Every duration of the Codex lifecycle is how long some terminal record in scope took. |
| `Observability.EventsTellWhere` | src/agentic_engineering_os/application/execution_observability.py:133-175 | The start event of a record carries the head before it, and its outcome event the head after it. |
| `Observability.ProjectTerminalEvents` | src/agentic_engineering_os/application/execution_observability.py:106-130 | The start and the outcome of every terminal record if and only if every record can be projected, and otherwise what keeps the first one from it: a foreign repository, no observation, or one without a start time or a Git state. |
| `Observability.ProjectableExactlyWhen` | src/agentic_engineering_os/application/execution_observability.py:106-130 | A ledger can be projected if and only if all its records are of this repository, and every VALIDATED, FAILED or INTERRUPTED one has an observation with a start time and both Git states. |
| `Observability.ProjectedEventsAreAccepted` | src/agentic_engineering_os/application/execution_observability.py:203-224 | Every projected event passes the check that stored Codex events must pass. |
| `Observability.BoundExactlyWhen` | src/agentic_engineering_os/application/execution_observability.py:203-224 | A stored Codex event is accepted if and only if a record of the ledger has its execution id, mission, generation and role, and was observed at, or planned for, its commit. |
| `Observability.RetainedExactlyWhen` | src/agentic_engineering_os/application/execution_observability.py:74-86 | A stored event gives way if and only if it is a Codex event and a projected one agrees with it on project, mission, generation, role, execution and operation. |
| `Observability.ReadingBackChangesNothing` | src/agentic_engineering_os/application/execution_observability.py:62-97 | Reading, over the same ledger, what was read before changes nothing. |
| `Observability.TimeoutsCountRecords` | src/agentic_engineering_os/application/execution_observability.py:187-200 | The timeout counter is the number of records in scope that timed out. |
| `Observability.ComputeFromStore` | src/agentic_engineering_os/application/metrics_engine.py:126-171 | Unavailable if and only if the reader fails; otherwise saturated, incomplete, or the snapshot of what the reader holds, whose Codex part agrees with the ledger that was read if the stored Codex events only restate it. |
| `ExecutionReporting.RefusedStartIsRecordedButNotProjected` | src/agentic_engineering_os/infrastructure/codex_runtime_adapter.py:1346-1376 | Whenever a running record is observed not to have started, the store accepts the write, and no projector can project the ledger that is written. |
| `ExecutionReporting.ProjectedExactlyWhen` | src/agentic_engineering_os/application/execution_observability.py:106-130 | Recording an observation leaves the ledger one that can be projected if and only if the runtime ended cleanly or the observation has its start time and both Git states. |
| `ExecutionReporting.RunKeepsTerminal` | src/agentic_engineering_os/infrastructure/execution_state_store.py:153-182 | In every run with serialized writes a VALIDATED, FAILED or INTERRUPTED record stays exactly as it is. |
| `ExecutionReporting.NeverProjectedAgain` | src/agentic_engineering_os/infrastructure/execution_state_store.py:153-182 | After a refused start no run of clients with serialized writes leads to a ledger that can be projected: terminal records stay as they are. |
| `Observability.Reader.Read` | src/agentic_engineering_os/application/execution_observability.py:62-97 | The combined events in key order at the first successful call, and the same ever after; an error if and only if some record cannot be projected or some stored Codex event is not bound to a record, and what is wrong with it. |

## Left out

- ExecutionProtocol.AtMostOneLaunch: assumes serialized writes, because without them it is false; the exact condition is AtMostOnceExactlyWhenSerialized.
- ExecutionService.UndisturbedExecutionCompletes: assumes that every record under the planned identity has the required shape; patterns and size limits of strings, and of the executable's identity, are a parameter.
- Incidents.ResolvedExactlyWhen: whether a diagnosis is current is given with it.
- SchemaExactness.BuildIsExact: for the schemas of ProjectWeakens; compatibility of a reference with its siblings is sufficient, and necessary only as ClosedInMergeExactlyWhen says, because a part that no instance satisfies loses nothing.
- SchemaValidity.ProjectWeakens: not for `oneOf`, `patternProperties`, `dependentSchemas`, `propertyNames`, `minContains`, `maxContains`, `unevaluatedItems`, `unevaluatedProperties`, nor where the members of an `enum`, or the value of a keyword of unknown meaning, hold something to project; for `enum` that is exactly where projection is no weakening.
- OutputSchema.ProjectObject: as ProjectNode.
- OutputSchema.ProjectNode: error kinds are collapsed to one; where a `const` stands beside an equal `enum` the constant is taken, while the source takes the key that comes last (the two differ only for `True` and `1`, or for mappings).
- ScopeConflicts.Analyze: overlapping paths are a set, not the reported tuple, and reasons are a set.
- CertificationAgreement.CheckAgreesWithRules: assumes that no acceptance criterion is called like the story, which the patterns of story ids and the usual criterion ids make so; duplicate criterion ids and repeated gates are allowed.
- CertificationService.Certify: the id and the time are given; an unavailable validator is not modelled.
- CertificationIntegrity.CertifiedDossierIssues: the issues without their order and texts; the two loops over referenced evidence are one.
- ControlLoop.StateStore.Save: the store's validation is an arbitrary predicate, so nothing proved depends on it; in particular only that validation keeps a rejected certification from being added to a certified story.
- ControlLoop.Loop.EvaluateGate: what the gate evaluator returns is a parameter.
- ControlLoop.Loop.CertifyUserStory: the request is not tied to the reason of a refusal by the certification service beyond what Certify states.
- ControlLoop.EvaluateTransition: refusals without their texts; the source status is always known.
- Dag.Build: refusals by the contract validator are not part of this model.
- MergeCoordinator.Coordinator.Merge: what is said about overlapping members is about a gate whose commits were there before the merge, as they are; the gate's evaluation is a parameter; branch names and paths are compared exactly, not case-folded; the negative-outcome store, `recover_merged` and the schema check of results are not part of this model; recognition of a repeated merge assumes a non-empty member list.
- GitRepository.Repository.MergeNoFf: conflicts and the content of merge commits are arbitrary; the primary's branch is none of the modelled branches.
- Configuration.Resolve: budget directives come in any order; staleness, scopes, fingerprints, attestation and diagnostics are not part of this model.
- Incidents.Evaluate: the signals of health, governance, budgets, metrics, events and diagnostics are the input; records are a dictionary, not the sorted tuple; the limit on prior records is not needed, and the size of one record in bytes is not part of this model.
- Incidents.MergeSignals: sources and reasons are sets, and their bounding is a parameter.
- Metrics.Compute: rates, gauges, availability of samples and the source fingerprint are functions of what is modelled and are left out.
- Metrics.ValidateCorpus: which refusal comes first is not stated.
- Observability.Reader.Read: as ProjectTerminalEvents; the two sources are read by the caller.
- Observability.ComputeFromStore: as Metrics.Compute; a retention probe that fails is not modelled.
- Observability.ProjectTerminalEvents: event ids, times and the Git state before an execution are parameters, which may be missing as in the source; severities and provenance are left out.
- `revalidate_completed`, JSON encoding and decoding of ledgers and states, file-system safety of the stores.
- The command line, Codex processes, capability probing, worktree management, wave planning, mission composition, initialization and adoption: orchestration or foreign calls.
- Governance policy, health evaluation, mission admission, maintenance governance: closed tables whose claims one reading of a branch settles.
