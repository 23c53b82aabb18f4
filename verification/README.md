# ResearchAgent Runtime: a verified model of its control flow

ResearchAgent Runtime runs long mathematical work under the rule that reasoning is soft and control flow is
hard. This project models that control flow in Dafny and proves what it is for. `dafny verify dfyconfig.toml`
checks all of it.

## What is modelled

**Plans and workflow.** `StepPlans` holds the recursive cycle check and the topological sort, as methods over
mutable `visited`/`path`/`order` state. `WorkflowModel` is the specification of the coordinator's transitions, with
their error cases; `WorkflowCoordinator` has the coordinator's classes, each method updating its fields in place
and proved to perform its transition. `WorkflowTheorems` proves what every sequence of calls keeps.
`MethodHistory` proves that a method's fields, and the coordinator's next answer, are determined by the calls the
method has accepted, each told on its own terms; `RunEffects` does so for the calls on a whole run.

**Durable tasks.** `TaskLedger` specifies the lease protocol, one atomic step per write transaction with the clock
reading as an argument. `TaskStores.TaskStore` is the store itself, a class over a row map whose ghost history
makes the theorems about runs apply to it. `TaskTheorems` proves dependency closure, fencing, disjoint tenures and
the counting of completions; clock readings are unordered except where a lemma says `Monotone`. `TaskEffects` says
what each step does to the rows, when it is refused, and that a lease lasts as long as was asked for.

**Orchestration.** `OrchestrationModel` specifies activation, sync, verdicts and regulation of one method. Every
read or write of the task table is preceded by a *gap* of arbitrary worker steps, so workers interleave with the
orchestrator as they do in the source, where `sync_method` loads one task at a time. `Orchestrator` has the
classes, which perform these functions with empty gaps. `Agreement` says when steps and tasks agree;
`ActivationAgreement` and `SyncAgreement` prove that they always do, whatever happens in the gaps and however a
call ends; `SyncTheorems` proves what one undisturbed sync achieves and exactly when it raises, `InterleavedSync`
exactly when it raises with workers acting between its reads; `SystemRuns` lifts agreement and sync to all runs of
many methods, workers and failures; `SystemProgress` shows that a sync of a method that was supplied with its tasks
and its teammate raises only by losing a race. `SystemWitnesses`, `SummaryWitnesses` and `RaceWitness` have
reachable runs in which a sync raises, `Permanence` proves which of these states no later call repairs; `Schedules`
shows that workers who go on until nothing can start finish every step; `Restarts` adds process restarts from stale
run images. `SyncEffects` proves what a sync does to its method with workers between any two reads, and that it
leaves every method alone that is neither in proof nor under revision; `CallEffects` does so for activation,
verdicts and regulation. `SystemHistory` lifts this to all runs: teammate, generation, plan, verdicts and counters
of a method are those of the calls made on it.

**Jobs and cron.** `JobLedger` and `JobStores` give the job life cycle with retry budget and recovery; `JobEffects`
proves what each step does and that the last accepted step decides a job's status. `CronText`
and `Separators` have Python's `int`, `isdigit`, `strip` and `split`, for every version's character tables and
digit limit; `CronExpr` is the expression validator and matcher over them, against a grammar and its meaning.
`CronDispatch` is a protocol of any number of scheduler processes that may crash between any two store operations;
`CronEffects` proves which processes fire a schedule, what retires one, and how ids are spelled in keys;
`OneShots` proves exactly which policies keep one-shot schedules to one job. `CronScheduler` has the store's and
the scheduler's methods, whose loops are that protocol's steps; `TickTheorems` says what one tick dispatches.

**Agent loop and context.** `ModelGateway` is the bounded retry with the fallback model; `AgentLoop` is the loop of
one turn with its recovery flags, and `TurnHistory` tells how a turn ends from the calls it made. `TokenEstimate` is
the weighted estimate over serialized JSON, in exact twentieths of a token, with `TokenShares` on what it charges
for and `JsonText` on the escaping; `ContextBudget` is the greedy compactor, and `RecentResults` proves which tool
results it protects.

**Messages and sources.** `MessageLedger` and `MessageStores` are the inter-agent message table and the legacy
mailbox import, `MailboxImport` the theorems about crashes and reruns, `ImportCounts` what its counters count.
`LiteratureSources` is the merging of retrieved literature; `SourceEntries` tells each merged entry from the records
that went into it; `SourceClasses` proves exactly when it merges the classes of matching records.

## Findings

Where the code does not do what one would expect, the model follows the code.

- Sync loads one task at a time, so workers may act between its reads. If it reads a task as unfinished, and a
  worker then completes that task and claims one that depends on it, the loop tries to start a step whose
  dependency it has not completed, and raises, although nothing is wrong (`RacingSyncRaises`). For a fully activated
  method of an active run this is the only way to raise, and needs a completion between two reads
  (`EquippedSyncRaisesIff`, `QuietSyncReturns`). The next undisturbed sync returns (`NextSyncSucceeds`).
- Preparing the worktree can fail after all tasks were created. The method is then in proof without a teammate, and
  sync raises exactly when some task has started and no failed task stands before it (`UnstaffedSyncRaisesIff`,
  `UnstaffedSyncRaises`). A task creation can fail before that; then every sync raises or fails the method
  (`MissingTaskRaises`, `MissingTaskSyncRaises`). No later call repairs either: the method never reaches
  verification (`CrippledIsForever`).
- A revision whose task could not be created leaves the method waiting for a task that does not exist
  (`RevisionSyncRaisesIff`, `LostRevisionRaises`). It never moves again, and every later sync of it raises, whatever
  happens short of a restart (`LostRevisionIsForever`).
- Once another method has moved the run to its summary, sync of a method still in proof raises as soon as it has a
  transition to make (`SnapshotSync`, with `active` false; `SummarizedSyncRaises`), and sync of a method under
  revision as soon as the revision's task has ended (`RevisionSyncRaisesIff`, `SummarizedRevisionRaises`).
- A one-shot schedule can yield two jobs. If the store raises between the enqueue and the mark, it fires again in
  the next matching minute, because reconciliation runs only at startup (`FailedMarkRefires`); so it does after a
  crash there without reconciliation (`UnreconciledRefires`) and with two schedulers (`TwoSchedulersRefire`). These
  three are the only reasons: excluding all of them is necessary and sufficient (`OneShotsFireOnceIff`).
- Two schedule ids that differ only in unsafe characters share their idempotency keys (`KeysIdentifyFirings`,
  `SpellingsCollide`). When both are due in one minute the later one is neither run nor marked
  (`SameSpellingStarves`).
- The expression validator raises instead of refusing on a number that `isdigit` takes and `int` does not: one with
  a superscript two, for example, or one of more digits than `int` converts. It does so on an expression exactly when
  the first field that is not accepted holds such a number before any refused entry (`ValidateRaisesIff`,
  `ExpressionRaisesIff`, `DigitExpressionRaises`).
- Merging sources can leave two entries with the same DOI when a record bridges them (`BridgeLeavesDuplicates`).
  The merge yields the classes of matching records exactly when matching is transitive on the input
  (`MergesClassesIff`). A record marked as Crossref's that has no DOI makes its entry forget the DOI it had
  (`CrossrefDropsDoi`); Crossref's own records always have one, and then no entry loses its last (`DoiSurvives`).
- A process that restarts from a stale run image keeps the agreement of steps and tasks, but forgets tasks the image
  does not know of. Of all tasks ever issued for a method, earlier restarts included, none is orphaned exactly when
  every forgotten one is completed (`RestoreOrphansIff`, `StaleRestoreOrphans`).

## Model

| member | source | states |
|---|---|---|
| `StepPlans.DependencyWalk.Visit` | agent_runtime/research/workflow.py:444-453 | the recursive visit reports a cycle only if there is one; otherwise the step and all it needs are visited, dependencies first |
| `StepPlans.WalkAll` | agent_runtime/research/workflow.py:441-456 | the whole walk finds a cycle exactly when the dependency graph has one, and otherwise has a topological order |
| `StepPlans.CheckDependencies` | agent_runtime/research/workflow.py:432-439 | passes only plans that are closed under dependencies, and rejects for the defect it names |
| `StepPlans.ValidateStepPlan` | agent_runtime/research/workflow.py:421-456 | accepts a plan if and only if it is nonempty, has unique ids, known dependencies and no cycle; each error is raised only for its defect |
| `StepPlans.OrderedImpliesAcyclic` | agent_runtime/research/workflow.py:441-456 | a graph with a dependencies-first order has no cycle, so the walk's two answers exclude each other |
| `StepPlans.TopologicalStepIds` | agent_runtime/research/orchestration.py:1034-1054 | every accepted plan gets a permutation of its steps with each dependency before its dependents |
| `WorkflowCoordinator.MethodAttempt.Assign` | agent_runtime/research/workflow.py:135-143 | makes the given name the teammate, whoever it was before, refuses an empty one, and changes nothing else |
| `WorkflowCoordinator.MethodAttempt.AdoptPlan` | agent_runtime/research/workflow.py:145-169 | takes exactly the well-formed plans, only in decomposition, as fresh pending steps |
| `WorkflowCoordinator.MethodAttempt.Start` | agent_runtime/research/workflow.py:171-200 | starts a pending step exactly when the method is staffed, in proof, not revising, and its dependencies are completed |
| `WorkflowCoordinator.MethodAttempt.Finish` | agent_runtime/research/workflow.py:202-213 | completes exactly a step in progress of a method in proof |
| `WorkflowCoordinator.MethodAttempt.Submit` | agent_runtime/research/workflow.py:215-230 | moves to structural verification exactly when all steps are completed and no revision is pending |
| `WorkflowCoordinator.MethodAttempt.RecordStructural` | agent_runtime/research/workflow.py:232-247 | records the verdict and moves to detailed verification or regulation |
| `WorkflowCoordinator.MethodAttempt.RecordDetailed` | agent_runtime/research/workflow.py:249-264 | records the verdict and completes the method or sends it to regulation |
| `WorkflowCoordinator.MethodAttempt.RecordRegulator` | agent_runtime/research/workflow.py:266-294 | counts the proof revision, or the plan revision and a rewrite as such, clears the verdicts and sends the method back to proof or to decomposition |
| `WorkflowCoordinator.MethodAttempt.FinishRevision` | agent_runtime/research/workflow.py:296-307 | ends a pending revision in structural verification |
| `WorkflowCoordinator.MethodAttempt.Close` | agent_runtime/research/workflow.py:340-366 | fails or abandons a method that is not yet closed |
| `WorkflowCoordinator.ResearchWorkflowCoordinator.CompleteLiteratureSurvey` | agent_runtime/research/workflow.py:72-113 | easy runs go to direct proof without methods, others get one method per uniquely named proposal; the difficulty is stored even when later checks refuse |
| `WorkflowCoordinator.ResearchWorkflowCoordinator.FailLiteratureSurvey` | agent_runtime/research/workflow.py:115-124 | a survey can fail only while it is under way and for a known reason |
| `WorkflowCoordinator.ResearchWorkflowCoordinator.CompleteDirectProofRun` | agent_runtime/research/workflow.py:126-133 | a direct proof completes the run with a nonempty artifact |
| `WorkflowCoordinator.ResearchWorkflowCoordinator.OnActiveMethod` | agent_runtime/research/workflow.py:466-483 | a method call reaches exactly the named method of an active run and performs its transition |
| `WorkflowCoordinator.ResearchWorkflowCoordinator.BeginRunSummary` | agent_runtime/research/workflow.py:309-329 | selects known, completed methods without repetition, or refuses with the first error |
| `WorkflowCoordinator.ResearchWorkflowCoordinator.CompleteRunSummary` | agent_runtime/research/workflow.py:331-338 | a summarized run completes with a nonempty artifact |
| `WorkflowTheorems.MethodOpKeeps` | agent_runtime/research/workflow.py:135-366 | every method call keeps: started steps have completed dependencies, later stages have all steps completed, verdicts fit the stage, rewrites never exceed plan revisions |
| `WorkflowTheorems.OpKeeps` | agent_runtime/research/workflow.py:72-366 | every run call keeps: selected methods stay fully verified, and the artifact is set exactly when the run is completed |
| `WorkflowTheorems.VerifiedBeforeSummary` | agent_runtime/research/workflow.py:126-366 | over every sequence of calls a summary rests on methods with all steps completed and both verdicts done |
| `WorkflowTheorems.SummaryIsFinal` | agent_runtime/research/workflow.py:309-338 | from the summary on no call changes methods or selection, and a completed run refuses every call |
| `WorkflowTheorems.VerdictsConserved` | agent_runtime/research/workflow.py:232-294 | along every run the continue verdicts of a method are its proof and plan revisions, plus one exactly in regulation |
| `MethodHistory.MethodIsItsHistory` | agent_runtime/research/workflow.py:135-366 | over every run, refused calls included: the three counters are the accepted regulator actions of their kinds, the teammate is the last one assigned, the steps are those of the current plan with the status their last call gave them, and verdicts, action, stage and pending revision are those of the last calls that touch them |
| `MethodHistory.AnswersFollowHistory` | agent_runtime/research/workflow.py:135-366 | the coordinator answers a method call by the calls the method has accepted so far: illegal out of stage or before its dependencies and steps are done, invalid for an argument it cannot use, accepted otherwise |
| `RunEffects.SurveyEffect` | agent_runtime/research/workflow.py:72-113 | the survey ends in a direct proof or in one untouched method for each proposal, in order; refused proposals still leave the difficulty |
| `RunEffects.FailSurveyEffect` | agent_runtime/research/workflow.py:115-124 | a survey fails once, for a known reason |
| `RunEffects.SummaryEffect` | agent_runtime/research/workflow.py:309-329 | a summary begins exactly on a non-empty choice of completed methods, each kept once in the order first named; the first that cannot be chosen decides the error |
| `RunEffects.ArtifactEffect` | agent_runtime/research/workflow.py:126-133 | a direct proof, like a summary, is completed with its non-empty artifact and nothing else changes |
| `RunEffects.MethodCallEffect` | agent_runtime/research/workflow.py:466-483 | a call on a method of an active run changes that method alone |
| `TaskStores.TaskStore.CreateTask` | agent_runtime/tasks/store.py:183-227 | inserts a pending, unowned task with its dependencies, or refuses a taken id |
| `TaskStores.TaskStore.DependencyProblems` | agent_runtime/tasks/store.py:608-633 | returns exactly the unfinished and exactly the missing dependencies |
| `TaskStores.TaskStore.CanStartTask` | agent_runtime/tasks/store.py:334-343 | true exactly for pending tasks whose dependencies are all present and completed |
| `TaskStores.TaskStore.ClaimTask` | agent_runtime/tasks/store.py:345-437 | releases an expired lease first, then claims an unowned pending task with satisfied dependencies, in this order of checks |
| `TaskStores.TaskStore.HeartbeatTask` | agent_runtime/tasks/store.py:439-486 | extends the lease of the current holder and of nobody else |
| `TaskStores.TaskStore.RecoverExpiredTasks` | agent_runtime/tasks/store.py:488-527 | returns exactly the expired tasks to the pool in one pass: pending, unowned and unleased, with every other row as it was |
| `TaskStores.TaskStore.CompleteTask` | agent_runtime/tasks/store.py:529-564 | completes the task for a holder whose lease has not run out |
| `TaskStores.TaskStore.UpdateTaskWorktree` | agent_runtime/tasks/store.py:566-579 | sets the worktree of a known task and nothing else |
| `TaskTheorems.StepKeeps` | agent_runtime/tasks/store.py:183-579 | every step keeps the table sound: rows stay, dependencies stay, completion is final, started tasks have completed dependencies |
| `TaskTheorems.DependencyClosure` | agent_runtime/tasks/store.py:345-564 | over every run a started task has all its dependencies present and completed, even ones created after it |
| `TaskTheorems.ReclaimSucceeds` | agent_runtime/tasks/store.py:345-437 | claiming a task whose lease has expired always succeeds |
| `TaskTheorems.ClaimSucceedsIff` | agent_runtime/tasks/store.py:334-437 | a claim succeeds exactly when the task can start or its lease has expired |
| `TaskTheorems.HistoryMatches` | agent_runtime/tasks/store.py:345-564 | the row of a task in progress is the latest tenure of its history, and completions are counted |
| `TaskTheorems.CompletesAtMostOnce` | agent_runtime/tasks/store.py:529-564 | no run completes a task twice |
| `TaskTheorems.StaleWorkersAreFenced` | agent_runtime/tasks/store.py:439-564 | a renewal or completion succeeds only for the owner of the latest claim; a worker whose task was re-claimed changes nothing; no clock assumption |
| `TaskTheorems.TenuresAreDisjoint` | agent_runtime/tasks/store.py:132-149 | with readings that never decrease, the lease intervals of successive claims are disjoint |
| `TaskTheorems.CompletionsAreCounted` | agent_runtime/tasks/store.py:529-564 | the completed tasks of any set grow by exactly the successful completions |
| `TaskTheorems.FinishingTakesOneCompletionEach` | agent_runtime/tasks/store.py:529-564 | finishing n unfinished tasks takes exactly n successful completions |
| `TaskEffects.RecoverEffect` | agent_runtime/tasks/store.py:488-527 | recovery makes every task in progress whose lease has ended pending, unowned and unleased, reports exactly these, changes no other row, and finds nothing when repeated |
| `TaskEffects.RecoveredCanStart` | agent_runtime/tasks/store.py:488-527 | every recovered task can be started at once |
| `TaskEffects.LeaseLasts` | agent_runtime/tasks/store.py:132-149 | a lease got by a claim or a heartbeat lasts exactly the seconds asked for: until then its worker completes the task, nobody claims it and recovery passes it by, from then on the converse |
| `TaskEffects.ClaimEffect` | agent_runtime/tasks/store.py:345-437 | a granted claim sets status, owner and lease of one row; a refused one changes nothing but an ended lease |
| `TaskEffects.ClaimRefusal` | agent_runtime/tasks/store.py:388-415 | why a claim is refused: status, owner, or exactly the unfinished and the missing dependencies, in this order |
| `TaskEffects.CompleteEffect` | agent_runtime/tasks/store.py:529-564 | exactly the holder of a live lease completes; the row keeps its owner and loses its lease |
| `TaskEffects.HeartbeatEffect` | agent_runtime/tasks/store.py:439-486 | exactly the holder of a live lease renews it, counted from the reading of the heartbeat |
| `TaskEffects.HolderRefusal` | agent_runtime/tasks/store.py:439-564 | what a worker that does not hold the lease is told |
| `TaskEffects.CreateEffect` | agent_runtime/tasks/store.py:183-227 | a new row waits on exactly the given ids; a taken id keeps its row |
| `TaskEffects.WorktreeEffect` | agent_runtime/tasks/store.py:566-579 | only the worktree of the one row changes |
| `TaskEffects.FailureEffect` | benchmarks/run_benchmark.py:174-174 | an injected failure ends exactly a task in progress, under its owner |
| `Agreement.WorkersKeep` | agent_runtime/tasks/store.py:345-579 | nothing a worker does to the table breaks the agreement of steps and tasks |
| `ActivationAgreement.MaterializeKeeps` | agent_runtime/research/orchestration.py:379-399 | however materialization ends, the stored task graph stays isomorphic to the bound part of the plan graph |
| `ActivationAgreement.BeforeTurn` | agent_runtime/research/orchestration.py:382-385 | whenever the loop comes to a step, the step is found and each of its dependencies has its task: lookups never fail |
| `ActivationAgreement.MaterializeReturnsIff` | agent_runtime/research/orchestration.py:379-399 | with fresh ids that nobody else takes, materialization returns exactly when there is one for each step left |
| `ActivationAgreement.ActivateKeeps` | agent_runtime/research/orchestration.py:345-406 | activation keeps the agreement, complete or cut short at any point, with workers acting in between |
| `CallEffects.ActivationEffect` | agent_runtime/research/orchestration.py:345-406 | for every slot and gap: a forbidden activation changes nothing; any other binds the plan in the next generation, with the first ids for the first steps of the order, and returns exactly when all steps have tasks, the worktree is there and the prover has a name, which is exactly when the prover becomes the teammate |
| `SyncAgreement.SyncLoopKeeps` | agent_runtime/research/orchestration.py:424-450 | the sync loop keeps it with workers acting between any two task reads, even when it raises half way |
| `SyncAgreement.SyncKeeps` | agent_runtime/research/orchestration.py:409-455 | a whole sync keeps it, whatever it returns |
| `SyncAgreement.SyncRevisionKeeps` | agent_runtime/research/orchestration.py:865-883 | syncing a revision task keeps it and unbinds the task only when it is completed |
| `SyncAgreement.VerdictKeeps` | agent_runtime/research/orchestration.py:458-488 | recording a verdict keeps it and raises exactly when the coordinator refuses |
| `SyncAgreement.RegulationKeeps` | agent_runtime/research/orchestration.py:490-547 | regulation keeps it and leaves no unfinished task behind; a revision that is returned has its task |
| `CallEffects.VerdictEffect` | agent_runtime/research/orchestration.py:458-488 | a verdict counts in its own stage of an active run only; done passes the method on, continue sends it to regulation |
| `CallEffects.ReplanEffect` | agent_runtime/research/orchestration.py:490-547 | revising the plan or rewriting drops steps, tasks and revision task, counts the plan revision, and the rewrite if it is one |
| `CallEffects.ReviseEffect` | agent_runtime/research/orchestration.py:490-547 | revising the proof keeps the steps and creates one new task without blockers, bound to the method; it returns exactly when that id was free |
| `SyncTheorems.SnapshotSync` | agent_runtime/research/orchestration.py:409-455 | one sync of an unchanging table raises exactly when it meets an obstruction; otherwise each step is completed exactly when its task is, pending only if its task is, and structural verification is entered exactly when all tasks are completed |
| `SyncTheorems.UndisturbedSyncReturns` | agent_runtime/research/orchestration.py:409-455 | after a full activation of an active run a sync that no worker disturbs never raises, whatever workers did before |
| `SyncTheorems.UnstaffedSyncRaisesIff` | agent_runtime/research/orchestration.py:401-403 | without a teammate sync raises exactly when a task has started and no failed task comes first |
| `SyncTheorems.RevisionSyncRaisesIff` | agent_runtime/research/orchestration.py:865-883 | a pending revision's sync raises exactly when its task was never created, or the run is inactive and the task has ended |
| `InterleavedSync.InterleavedSyncRaisesIff` | agent_runtime/research/orchestration.py:424-455 | with any worker steps between the reads, sync of a method in proof raises exactly when, before any failed task, a read shows a missing task, a transition without a teammate or an active run, or a started task behind a dependency the loop left unfinished |
| `InterleavedSync.EquippedSyncRaisesIff` | agent_runtime/research/orchestration.py:424-450 | of a fully activated method of an active run it raises exactly when it loses a race: a pending step's task is read as started, and one of its dependencies is not completed and was read as unfinished |
| `InterleavedSync.QuietSyncReturns` | agent_runtime/research/orchestration.py:424-450 | a sync between whose reads no task is completed never raises on such a method, whatever else workers do |
| `SyncEffects.ProofSyncEffect` | agent_runtime/research/orchestration.py:409-455 | a sync of a method in proof, with any worker steps between its reads, gets to the first step that stops it: the steps before it stand where their tasks were read, the others are untouched, a failed task there fails the method, anything else there raises, and a method that gets through with all steps completed enters structural verification |
| `SyncEffects.SyncLeavesAlone` | agent_runtime/research/orchestration.py:421-422 | for every slot and gap, active or not: a method neither in proof nor under revision is unchanged, the table is not touched, and the call returns if there is a binding |
| `SyncEffects.RevisionSyncEffect` | agent_runtime/research/orchestration.py:865-883 | one read of the revision task decides: fail the method, complete the revision and unbind the task, or wait |
| `SyncEffects.SyncWritesNothing` | agent_runtime/research/orchestration.py:409-455 | for every slot: a sync leaves the table as workers left it before one of its reads |
| `SyncEffects.SyncFailsOnlyWithTask` | agent_runtime/research/orchestration.py:430-434 | for every slot and gap: a sync newly fails a method only if it read a bound step task, or the revision task, as failed or cancelled |
| `SyncTheorems.NoDeadlock` | agent_runtime/tasks/store.py:334-343 | while tasks are unfinished and none is running or failed, some pending task can start and any claim of it succeeds |
| `SyncTheorems.ExhaustedScheduleVerifies` | agent_runtime/research/orchestration.py:452-455 | when workers can do no more without a failure, all tasks are completed and the next sync enters structural verification |
| `Schedules.MaximalScheduleFinishes` | agent_runtime/tasks/store.py:345-564 | a schedule without failures that has run until no task can go on has completed exactly one task per step, and the next sync enters structural verification |
| `SystemRuns.AgreementEverywhere` | agent_runtime/research/orchestration.py:345-547 | after any events, with workers and lease recoveries interleaved anywhere, every method of every run agrees with its tasks |
| `SystemRuns.CompletedStepsHaveCompletedTasks` | agent_runtime/research/orchestration.py:409-455 | in every reachable state a completed step has a completed task |
| `SystemRuns.StartedStepsRestOnCompletedTasks` | agent_runtime/research/workflow.py:171-200 | in every reachable state what a started step depends on is completed, as a step and as a task |
| `SystemRuns.NoOrphanedWork` | agent_runtime/research/orchestration.py:366-406 | while a method has not failed, every task ever issued for it, in any generation or revision, is completed or still awaited |
| `SystemRuns.NextSyncSucceeds` | agent_runtime/research/orchestration.py:409-455 | after any run, even one in which a sync raised, the next undisturbed sync of a fully activated method succeeds |
| `SystemHistory.MemoryIsHistory` | agent_runtime/research/orchestration.py:345-547 | in every reachable state teammate, plan generation, plan, verdicts, action and counters of a method are settled by the activations, verdicts and regulations made on it, whatever syncs and workers did |
| `SystemHistory.TeammateIsLatestProver` | agent_runtime/research/orchestration.py:403-403 | in every reachable state the teammate of a method is the prover of its latest activation that returned |
| `SystemWitnesses.UnstaffedSyncRaises` | agent_runtime/research/orchestration.py:401-403 | a reachable state of an active run in which a method in proof has no teammate and its sync raises |
| `SystemWitnesses.MissingTaskSyncRaises` | agent_runtime/research/orchestration.py:424-429 | a reachable state of an active run in which a method in proof misses a task and its sync raises |
| `SystemWitnesses.LostRevisionRaises` | agent_runtime/research/orchestration.py:865-883 | a reachable state of an active run in which a revision is pending without a task and sync raises |
| `SummaryWitnesses.SummarizedSyncRaises` | agent_runtime/research/orchestration.py:424-450 | a reachable state in which the run is being summarized and sync of a staffed method still in proof raises |
| `SummaryWitnesses.SummarizedRevisionRaises` | agent_runtime/research/orchestration.py:865-883 | a reachable state in which the run is being summarized, a revision's task is completed and sync of its method raises |
| `RaceWitness.RacingSyncRaises` | agent_runtime/research/orchestration.py:424-450 | a reachable state of a fully activated method of an active run whose sync returns when undisturbed and raises with two worker steps between its reads |
| `Permanence.LostRevisionIsForever` | agent_runtime/research/orchestration.py:865-883 | once a pending revision has no task, no later event without a restart changes the method, and every sync of it raises, interleaved in any way |
| `Permanence.CrippledIsForever` | agent_runtime/research/orchestration.py:345-455 | a method in proof that misses a task or its teammate keeps missing it under every later event, or fails |
| `Permanence.MissingTaskRaises` | agent_runtime/research/orchestration.py:424-429 | sync of a method in proof that misses a task raises or fails the method, active or not, interleaved in any way |
| `Permanence.ProofIsUnfinished` | agent_runtime/research/orchestration.py:452-455 | in every reachable state a method in proof has a step that is not completed |
| `Restarts.AgreementSurvivesRestarts` | agent_runtime/research/orchestration.py:724-771 | after any events, saves and restores from images of any age, steps and tasks agree, in the live runs and in every saved image |
| `Restarts.RestoreGoesBack` | agent_runtime/research/orchestration.py:724-771 | over every run a restore puts each method of a run back to what it was at the latest save, forgets a run never saved, and leaves other runs and the task table alone |
| `Restarts.RestoreOrphansIff` | agent_runtime/research/orchestration.py:724-752 | after any run, earlier restores included, restoring a live method orphans none of the tasks ever issued for it exactly when each one that the image does not know of is completed |
| `Restarts.StaleRestoreOrphans` | agent_runtime/research/orchestration.py:724-752 | a run after which a restore leaves a task that workers can claim and no method waits for |
| `SystemProgress.SmoothSyncRaisesIff` | agent_runtime/research/orchestration.py:409-455 | in runs where every activation and revision is supplied with enough fresh ids and a prepared worktree, a sync of a bound method of an active run raises exactly when it loses a race in a proof, and returns when no task is completed between its reads |
| `Orchestrator.ResearchWorkflowOrchestrator.ActivateMethod` | agent_runtime/research/orchestration.py:345-406 | plans, materializes and staffs in place, exactly as the activation function says, for some topological order of the plan; when it returns, the given prover is the teammate |
| `Orchestrator.ResearchWorkflowOrchestrator.MaterializeSteps` | agent_runtime/research/orchestration.py:379-399 | creates the tasks in order with the tasks of each step's dependencies as blockers, stopping at the first refusal |
| `Orchestrator.ResearchWorkflowOrchestrator.SyncSteps` | agent_runtime/research/orchestration.py:424-450 | the loop over the steps does what the sync loop function says |
| `Orchestrator.ResearchWorkflowOrchestrator.SyncRevisionTask` | agent_runtime/research/orchestration.py:865-883 | follows the revision task: fail, complete and unbind, or wait |
| `Orchestrator.ResearchWorkflowOrchestrator.SyncMethod` | agent_runtime/research/orchestration.py:409-455 | the whole sync of one method, on the table as it stands; a method neither in proof nor under revision is left alone |
| `Orchestrator.ResearchWorkflowOrchestrator.RecordRegulatorAction` | agent_runtime/research/orchestration.py:490-547 | regulates and then creates the revision task, or drops the old generation's binding |
| `JobStores.JobStore.Create` | agent_runtime/jobs/store.py:366-414 | queues a new job or refuses bad arguments and taken ids |
| `JobStores.JobStore.CreateOnce` | agent_runtime/jobs/store.py:416-488 | creates at most once per id, and refuses an id that names another logical job |
| `JobStores.JobStore.Claim` | agent_runtime/jobs/store.py:567-594 | takes a queued, available job and counts the attempt |
| `JobStores.JobStore.Fail` | agent_runtime/jobs/store.py:681-717 | the running owner's failure requeues while the budget lasts and a retry is asked for |
| `JobStores.JobStore.Finish` | agent_runtime/jobs/store.py:665-733 | the running owner ends the job as succeeded or timed out |
| `JobStores.JobStore.Cancel` | agent_runtime/jobs/store.py:735-758 | cancels a job that has not ended and leaves an ended one alone |
| `JobStores.JobStore.Recover` | agent_runtime/jobs/store.py:760-811 | the loop decides exactly the selected running jobs: requeued with budget left, failed without |
| `JobLedger.RetryBudget` | agent_runtime/jobs/store.py:567-811 | over every run attempts equal successful claims and never pass the limit, and a queued job always has budget left |
| `JobLedger.OnlyCurrentRunnerFinishes` | agent_runtime/jobs/store.py:646-733 | only the runner of the latest claim can finish a job; everyone else changes nothing |
| `JobLedger.TerminalAbsorbs` | agent_runtime/jobs/store.py:665-758 | after an ended job any further steps leave status, runner and counter as they are |
| `JobLedger.RecoveryLeavesNoneRunning` | agent_runtime/jobs/store.py:760-811 | a full recovery requeues a running job with budget left and fails it without |
| `JobEffects.StatusIsLastMove` | agent_runtime/jobs/store.py:567-811 | over every run a job has the status its last accepted step stands for: succeeded only by a success report, timed out only by a timeout, never requeued by a failure without retry |
| `JobEffects.EndEffect` | agent_runtime/jobs/store.py:646-733 | exactly the runner of a running job ends the attempt; the status is the one reported, and a requeued job has no runner |
| `JobEffects.ClaimEffect` | agent_runtime/jobs/store.py:567-594 | a claim succeeds exactly on a queued job whose time has come |
| `JobEffects.CreateEffect` | agent_runtime/jobs/store.py:366-414 | a new job is queued, without runner or attempts; bad arguments and taken ids change nothing |
| `JobEffects.CreateOnceEffect` | agent_runtime/jobs/store.py:416-488 | a known id is found if kind, source and schedule agree, and refused otherwise |
| `JobEffects.CancelEffect` | agent_runtime/jobs/store.py:735-758 | a job that has not ended is cancelled, and nothing else of it changes |
| `JobEffects.NotifyEffect` | agent_runtime/jobs/store.py:552-565 | only an ended job is marked as notified |
| `JobEffects.RecoverEffect` | agent_runtime/jobs/store.py:760-811 | recovery takes exactly the running jobs of the given source and kind |
| `CronText.ParseDigits` | agent_runtime/jobs/runtime.py:284-296 | on text that passes `isdigit`, `int` reads exactly the decimal texts within its digit limit, to their value, and raises on the others |
| `CronText.ParseSigned` | agent_runtime/jobs/runtime.py:284-296 | `int` undoes writing a number: padding goes, the sign counts, underscores between digits do not |
| `CronText.AsciiSpaces` | agent_runtime/jobs/runtime.py:284-302 | which ASCII characters `strip` and `split` take for spaces, and which `int` does |
| `CronText.WordsOfSpread` | agent_runtime/jobs/runtime.py:299-302 | splitting undoes spacing: whatever the gaps between words, the words come back |
| `CronText.TrimOfPadded` | agent_runtime/jobs/runtime.py:299-302 | stripping undoes padding |
| `CronExpr.FieldMatchesMeaning` | agent_runtime/jobs/runtime.py:282-296 | on every field the grammar reads, the matcher parses every integer and returns membership in the field's set of values |
| `CronExpr.ValidFieldIff` | agent_runtime/jobs/runtime.py:323-352 | the validator accepts a field exactly when it reads as an entry of the grammar within the bounds, lists and their members included, in the digits of any script |
| `CronExpr.ValidateRaisesIff` | agent_runtime/jobs/runtime.py:323-352 | it raises exactly on a number of digits that `int` refuses, in a list when every entry before is accepted |
| `CronExpr.ValidatorRaises` | agent_runtime/jobs/runtime.py:326-350 | it does raise on every single digit that is no decimal, and on a text of one zero more than `int` converts |
| `CronExpr.ExpressionRaisesIff` | agent_runtime/jobs/runtime.py:354-365 | validating an expression raises exactly when it has five fields, one of them raises, and those before it are bounded entries of the grammar |
| `CronExpr.DigitExpressionRaises` | agent_runtime/jobs/runtime.py:354-365 | it does raise when the minute is a digit that is no decimal and the other fields are unrestricted |
| `CronExpr.AcceptedExpressionsFire` | agent_runtime/jobs/runtime.py:299-365 | an expression is accepted exactly when its five fields are bounded entries; on every expression of the grammar `matches` is total and equals the denotation of the five fields with the day rule |
| `CronExpr.FiveFields` | agent_runtime/jobs/runtime.py:299-302 | an expression of other than five fields is refused and never fires |
| `CronDispatch.KeysIdentifyFirings` | agent_runtime/jobs/cron.py:15-23 | two firings share a key exactly when their minutes are equal and their schedule ids fold to the same spelling |
| `CronDispatch.SpellingsCollide` | agent_runtime/jobs/cron.py:15-23 | two different schedule ids with one key in every minute |
| `CronDispatch.PlainIdsKept` | agent_runtime/jobs/cron.py:17-17 | ids of safe characters without underscores at the ends are their own spelling |
| `CronEffects.OrdinaryIdsKept` | agent_runtime/jobs/cron.py:17-17 | ids of ASCII letters, digits, underscores, dots and dashes are their own spelling |
| `CronEffects.RunFoldsToOne` | agent_runtime/jobs/cron.py:17-17 | a run of other characters, however long, becomes one underscore |
| `CronEffects.SpellingIsTheCore` | agent_runtime/jobs/cron.py:17-17 | the spelling is the folded id without the underscores around it |
| `CronDispatch.StepKeeps` | agent_runtime/jobs/runtime.py:446-478 | every store operation, crash and fault keeps: each cron job sits under its own key, each recorded firing minute has its job |
| `CronDispatch.OneJobPerFiring` | agent_runtime/jobs/runtime.py:446-478 | with any number of schedulers, crashes and failing stores there is at most one job per schedule and minute |
| `CronEffects.OnlyOwnSchedulesFire` | agent_runtime/jobs/runtime.py:446-478 | over every run a new cron job comes from a tick of a process that may see its schedule, in that minute, for a schedule due then and not yet recorded as fired in it |
| `CronEffects.RetiredOnlyWhenDone` | agent_runtime/jobs/store.py:298-364 | over every run a cancelled schedule stays retired, and one retired without a cancel is a one-shot that has its job |
| `CronEffects.MarkEffect` | agent_runtime/jobs/store.py:298-324 | a mark records the minute and retires exactly a one-shot |
| `CronEffects.CreateEffect` | agent_runtime/jobs/store.py:178-214 | a new schedule is active and unfired, and tied to its session unless durable |
| `OneShots.OneShotFiresOnce` | agent_runtime/jobs/cron.py:141-153 | one scheduler, reconciled after each start, with no failing mark: whatever else fails, a one-shot schedule yields at most one job ever |
| `OneShots.FailedMarkRefires` | agent_runtime/jobs/runtime.py:459-477 | if only a mark may fail, some run yields two, for every schedule with a key and every two minutes |
| `OneShots.UnreconciledRefires` | agent_runtime/jobs/cron.py:141-153 | if only reconciliation is left out, some run with a crash yields two |
| `OneShots.TwoSchedulersRefire` | agent_runtime/jobs/runtime.py:446-478 | if only a second scheduler is allowed, some run yields two |
| `OneShots.OneShotsFireOnceIff` | agent_runtime/jobs/runtime.py:446-478 | of the policies made of these three conditions, the one that demands all three is the only one whose runs never fire a one-shot twice |
| `CronScheduler.CronStore.EnqueueScheduledPrompt` | agent_runtime/jobs/cron.py:26-60 | creates this firing's job once, finds it, or refuses an empty or foreign key |
| `CronScheduler.CronStore.MarkScheduleFired` | agent_runtime/jobs/store.py:298-324 | records the minute of an active schedule and retires a one-shot in the same write |
| `CronScheduler.CronStore.DeactivateSchedule` | agent_runtime/jobs/store.py:326-341 | deactivates one schedule and changes nothing else |
| `CronScheduler.TickHead` | agent_runtime/jobs/runtime.py:450-473 | a visible schedule is skipped, refused, or enqueued and then marked, as two steps of the protocol |
| `CronScheduler.CronSchedulerRuntime.Tick` | agent_runtime/jobs/runtime.py:446-478 | the loop of a tick is the protocol's tick steps run to the end, and reports exactly the jobs that are new |
| `TickTheorems.TickDispatchesIff` | agent_runtime/jobs/runtime.py:446-478 | an undisturbed tick gives each visible schedule that is due and not yet fired in this minute its job and its mark exactly when it wins its key, and leaves it untouched otherwise |
| `TickTheorems.TickTables` | agent_runtime/jobs/runtime.py:446-478 | the whole store after an undisturbed tick: exactly the winners are marked, one-shots among them retired; each has the job of its key, there is no other new job, and nothing else changes |
| `TickTheorems.DueIsDenoted` | agent_runtime/jobs/runtime.py:299-321 | a schedule with an expression of the grammar is due exactly at the instants it denotes |
| `TickTheorems.OnlyMatchesAreDue` | agent_runtime/jobs/runtime.py:450-452 | a schedule whose expression raises is not due |
| `TickTheorems.SameSpellingStarves` | agent_runtime/jobs/runtime.py:446-478 | of two visible ids with one spelling, due in one minute, the later is neither stored nor marked |
| `CronScheduler.CronSchedulerRuntime.ReconcileOneShots` | agent_runtime/jobs/cron.py:141-153 | the loop deactivates exactly the visible one-shot schedules that already have a job |
| `ModelGateway.WithRetry` | agent_runtime/runtime/model_gateway.py:86-128 | one call uses at most `maxRetries` attempts, is decided by the first attempt not retried, and leaves the primary model exactly when enough overloads have come without a success |
| `ModelGateway.CallsAreDetermined` | agent_runtime/runtime/model_gateway.py:86-128 | the provider's answers determine how many attempts a call uses and how it ends |
| `AgentLoop.CollectResults` | agent_runtime/runtime/loop.py:372-560 | every tool use is answered once and in order, unless a compaction ends the round at that use |
| `AgentLoop.AfterCall` | agent_runtime/runtime/loop.py:292-368 | one outcome handled in place: which flags are set, which are reset, the next token limit, when the turn stops, and which tool results go back |
| `AgentLoop.ReactSpends` | agent_runtime/runtime/loop.py:292-368 | every survived call spends patience, and only a tool round gives a unit back |
| `AgentLoop.CallsAreBounded` | agent_runtime/runtime/loop.py:244-368 | a turn with T tool rounds makes at most 2T + R + 7 model calls |
| `AgentLoop.BoundIsReached` | agent_runtime/runtime/loop.py:244-368 | for every T and R some turn, each of its tool rounds with a tool use, makes exactly 2T + R + 7 calls |
| `TurnHistory.TurnResult` | agent_runtime/runtime/loop.py:244-368 | a turn that is over ended with its last call, and its result says why, told from the calls before: answered, failed call, truncated too often, or research left open |
| `TurnHistory.NextLimit` | agent_runtime/runtime/loop.py:292-330 | the next call asks for the raised limit exactly when a response was cut off and none has been complete since |
| `TurnHistory.SentIff` | agent_runtime/runtime/loop.py:372-560 | tool results go back exactly for a complete response that uses tools and compacts with none of them |
| `TurnHistory.UseIdsConcat` | agent_runtime/runtime/loop.py:372-560 | results are given in the order of the blocks |
| `TurnHistory.UseIdsOfOne` | agent_runtime/runtime/loop.py:372-560 | one result for each tool use, none for prose |
| `AgentLoop.RunTurn` | agent_runtime/runtime/loop.py:244-368 | the loop makes the calls the provider's answers determine, answers every tool use of each round that is not compacted, spends at most `maxRetries` times the call bound, and ends once that many answers are given |
| `TokenEstimate.EstimateText` | agent_runtime/context/budget.py:29-44 | the loop computes the weighted units rounded up, at least 1 for a nonempty text |
| `TokenEstimate.EstimateMessages` | agent_runtime/context/budget.py:62-69 | the loop totals framing, role and content of each message |
| `TokenEstimate.EscapedCostsMore` | agent_runtime/context/budget.py:46-60 | JSON escaping never lowers the cost of a text |
| `TokenEstimate.SerializedCostsMore` | agent_runtime/context/budget.py:46-60 | inside its message a value costs at least its own estimate |
| `TokenEstimate.NoteUnits` | agent_runtime/context/budget.py:86-89 | the placeholder weighs 456 twentieths, costs 23 tokens and needs no escaping |
| `TokenShares.TextCost` | agent_runtime/context/budget.py:29-44 | a text costs 0.8 for each character beyond ASCII, 0.05 for each blank and 0.25 for any other, rounded up |
| `TokenShares.FramingCost` | agent_runtime/context/budget.py:62-69 | a conversation costs four tokens a message on top of its roles and contents |
| `JsonText.EscapedReadsBack` | agent_runtime/context/budget.py:46-60 | reading a JSON string back gives the text that was escaped |
| `ContextBudget.Configure` | agent_runtime/context/budget.py:91-115 | exactly positive limits, ratios in (0, 1] and non-negative counts are accepted; they are kept, and the soft limit is the truncated share, between 1 and the token limit |
| `ContextBudget.CollectToolResults` | agent_runtime/context/budget.py:121-132 | the nested loops list the tool results of user messages |
| `ContextBudget.ResultsExact` | agent_runtime/context/budget.py:121-132 | that list holds every tool result of a user message exactly once, in reading order |
| `ContextBudget.RankedLargestFirst` | agent_runtime/context/budget.py:151-159 | candidates are ranked by falling cost, reading order among equals |
| `ContextBudget.ReplaceDrops` | agent_runtime/context/budget.py:166-172 | overwriting a result of at least t >= 25 tokens lowers the rounded estimate by at least t - 25 |
| `ContextBudget.FitIsGreedy` | agent_runtime/context/budget.py:134-172 | `fit` overwrites a prefix of the ranking, each time because the estimate was still too high, and stops within the limit or with only results below the threshold left |
| `ContextBudget.FitOnlyOverwritesOldResults` | agent_runtime/context/budget.py:141-172 | each chosen unprotected tool result becomes itself with the note for its content, and nothing else changes |
| `ContextBudget.FitSaves` | agent_runtime/context/budget.py:161-174 | with a threshold of at least 25 each compaction lowers the estimate by at least threshold - 25 |
| `ContextBudget.FitExhausts` | agent_runtime/context/budget.py:161-174 | if the estimate ends above the soft limit, each unprotected result is the placeholder or costs less than the threshold |
| `ContextBudget.SummaryOnlyWhenExhausted` | agent_runtime/context/budget.py:174-180 | a summary is asked for only when overwriting any unprotected result would change nothing or it is below the threshold; above a threshold of 23, which the note itself costs, all are below it |
| `ContextBudget.FitIsIdempotent` | agent_runtime/context/budget.py:134-180 | fitting a fitted conversation changes nothing, for every budget |
| `RecentResults.CandidatesIff` | agent_runtime/context/budget.py:141-147 | a tool result may be overwritten exactly when at least `keep_recent` tool results come after it |
| `RecentResults.RecentAreKept` | agent_runtime/context/budget.py:141-172 | a block that fewer tool results follow is the same after `fit` |
| `RecentResults.OtherContentIsKept` | agent_runtime/context/budget.py:121-172 | roles, messages of other roles, plain texts and blocks that are no tool results are the same after `fit` |
| `RecentResults.ChangedBlocksHoldTheNote` | agent_runtime/context/budget.py:161-172 | a block that `fit` changes is an old tool result that now holds the note, with the rest of it kept |
| `ContextBudget.Fit` | agent_runtime/context/budget.py:134-180 | the method works on a copy, in place, computes that function and reports before, after, count and the need for a summary |
| `MessageStores.MessageStore.Send` | agent_runtime/team/store.py:135-170 | appends an unread row, or refuses a repeated import key |
| `MessageStores.MessageStore.ConsumeInbox` | agent_runtime/team/store.py:172-219 | returns the oldest unread messages up to the limit and leaves exactly the others unread |
| `MessageStores.MessageStore.InsertOrIgnore` | agent_runtime/team/store.py:293-319 | inserts under a new key and ignores a known one |
| `MessageStores.ImportFile` | agent_runtime/team/store.py:267-326 | stores the lines of one mailbox file, counts new rows, duplicates, refused lines, failing inserts and a failing removal, and removes the file exactly when there was no error |
| `MessageStores.CleanRefusesNone` | agent_runtime/team/store.py:273-326 | the refused lines number zero exactly when each line is blank or stored |
| `ImportCounts.CountersCount` | agent_runtime/team/store.py:273-326 | the taken lines and the errors of a file are as many as there are such lines, and the rest is blank |
| `ImportCounts.FileCounts` | agent_runtime/team/store.py:267-326 | the errors of one file: one if it cannot be read, else its refused lines, else one if it cannot be removed |
| `MessageStores.MigrateLegacyMailboxes` | agent_runtime/team/store.py:250-333 | the run over all files is its sequence of inserts and removals; imported and duplicates together are all lines the table takes, errors are the refused lines, failing inserts, unreadable files and failing removals, and there are none exactly when every file is removed |
| `MessageLedger.BatchIsHeadOfInbox` | agent_runtime/team/store.py:172-219 | a read takes from the front, at most its room, and stops short only of an empty inbox |
| `MessageLedger.MarkedOnlyConsumes` | agent_runtime/team/store.py:207-216 | a read only marks rows of its reader that were unread |
| `MessageLedger.MarkedKeepsOthers` | agent_runtime/team/store.py:207-216 | a read leaves the inboxes of other agents as they are |
| `MessageLedger.SendEffect` | agent_runtime/team/store.py:135-170 | a send adds one unread row at the end, and nothing under a key that some row has |
| `MessageLedger.ReadTakesItsShare` | agent_runtime/team/store.py:183-206 | no limit drains the inbox; a limit, brought to 1..10000, is met exactly if there are that many |
| `MessageLedger.InboxIsFifo` | agent_runtime/team/store.py:135-219 | for any interleaving of sends, imports and reads, what an agent was given followed by its unread messages is everything accepted for it, in order, without repetition |
| `MailboxImport.StepKeeps` | agent_runtime/team/store.py:250-333 | every operation, by any number of importers, keeps keys unique, rows faithful to their lines, and files present until stored |
| `MailboxImport.CrashEffect` | agent_runtime/team/store.py:250-257 | a crash ends one importer where it stands, and nothing stored is lost |
| `MailboxImport.LegacyLinesAreStoredOnce` | agent_runtime/team/store.py:250-333 | across crashes and reruns a legacy line has at most one row, with its message, and exactly one once its file is gone |
| `MailboxImport.UninterruptedImportIsComplete` | agent_runtime/team/store.py:250-333 | a run without faults stores every storable line and removes every file without other lines |
| `LiteratureSources.DeduplicateSources` | agent_runtime/research/literature_search.py:155-189 | the loop folds each record into the first entry it matches |
| `LiteratureSources.DeduplicationPartitions` | agent_runtime/research/literature_search.py:155-189 | each input's ids and providers land together in one entry, and an entry holds those of its inputs and no others |
| `LiteratureSources.DeduplicationConserves` | agent_runtime/research/literature_search.py:155-189 | the unions of ids and of providers are those of the input, and the list does not grow |
| `LiteratureSources.OnlyRelatedRecordsMerge` | agent_runtime/research/literature_search.py:161-165 | a record joins an entry only if it shares a DOI, an identity or a title with an earlier input there |
| `LiteratureSources.RelatedRecordsMerge` | agent_runtime/research/literature_search.py:161-170 | a record is listed on its own exactly when it is related to no entry |
| `SourceEntries.EntryIsTold` | agent_runtime/research/literature_search.py:155-189 | identity and title of an entry are those of its first Crossref record, or else of its first; the abstract is that record's or else the first one; its DOI is that record's or else the first lent after it; ids and providers stand in order of first occurrence |
| `SourceEntries.DoiSurvives` | agent_runtime/research/literature_search.py:176-187 | while Crossref records carry their DOI no entry loses its last one |
| `SourceEntries.CrossrefDropsDoi` | agent_runtime/research/literature_search.py:176-181 | a Crossref record without DOI makes the entry forget its DOI |
| `SourceClasses.MergesClassesIff` | agent_runtime/research/literature_search.py:155-189 | matching is transitive on the input exactly when two records end up in one entry if and only if they match |
| `SourceClasses.TransitiveIsUnlinked` | agent_runtime/research/literature_search.py:155-189 | then no two entries of the result are related |
| `SourceClasses.TransitiveHasNoBridges` | agent_runtime/research/literature_search.py:155-189 | and no input matches two entries when it arrives |
| `LiteratureSources.BridgeLeavesDuplicates` | agent_runtime/research/literature_search.py:180-188 | a bridging record that lends its DOI leaves two entries with the same DOI |
| `LiteratureSources.DuplicatesHappen` | agent_runtime/research/literature_search.py:155-189 | such records exist |
| `LiteratureSources.LiteratureRecord.RecordLiteratureToolResult` | agent_runtime/research/orchestration.py:259-278 | during the survey a result is merged into the run's sources, and the run's ids are exactly the old and the new ones |
| `LiteratureSources.RecordingLosesNothing` | agent_runtime/research/orchestration.py:275-278 | over any number of recordings a run holds exactly the ids it was ever given |

## Left out

- SQLite: each write transaction is one atomic step; busy timeouts, WAL and the limit on bound variables of one statement are not modelled.
- `set_status`, `import_task` and legacy task import: administrative overrides that bypass the protocol by design.
- Model calls, prompts, teammate threads, worktrees, hooks and terminal output: inputs or omitted.
- Text handling: trimming, case folding and parsing of verdicts, actions, difficulties and proposals arrive as already parsed options; method ids are positions from 1, rendered by the source as `method_NN`.
- Literature evidence checks before a survey is completed, provider status events and relevance ranking.
- Look-up of runs and bindings by id in the imperative orchestrator: its methods take the run and the binding. Unknown ids are modelled in `SystemRuns`.
- Task ids are supplied fresh by the caller; an exhausted supply stands for any other failure of task creation. A repeated run id is ignored, as run ids are random.
- Orchestrator.ResearchWorkflowOrchestrator.SyncMethod: runs against a table no worker touches meanwhile; the interleaved version is proved about the same functions in `SyncAgreement` and `SystemRuns`.
- TaskStores.TaskStore.constructor: a default lease that is not positive is refused by the source and excluded here.
- JobStores.JobStore.Claim: also stands for `claim_next`, which claims the oldest runnable row; that order, payloads, results, timeouts and notification texts are left out.
- JobStores.JobStore.Finish: models success and timeout in one method, as they differ only in the final status.
- CronExpr.ValidateExpression: the texts of its messages are left out; a verdict is acceptance, refusal or an exception.
- CronDispatch.StepKeeps: reconciliation is one atomic step there; `CronScheduler` has it as the loop it is. Legacy schedule import and prompt delivery are left out.
- OneShots.OneShotsFireOnceIff: about policies; of a single run, a fault is fatal only if another due minute follows.
- Restarts.AgreementSurvivesRestarts: every image that was saved can be read back; the source skips one it cannot parse.
- AgentLoop.RunTurn: message texts, todo reminders, trace events and the run-id bookkeeping of tool calls are left out; whether research is open or failed arrives with each reply.
- TokenEstimate.EstimateText: exact twentieths instead of floating point sums; values that cannot be serialized are not modelled.
- ContextBudget.Fit: a conversation in which one block object occurs twice is copied as two blocks.
- MessageLedger.InboxIsFifo: timestamps and metadata of messages are left out.
- MailboxImport.LegacyLinesAreStoredOnce: the key holds the line's text where the source holds its SHA-256 digest, and nobody writes to a mailbox file during import.
- SourceClasses.TransitiveIsUnlinked: one direction, as a bridge may also leave unrelated entries when the merged record drops the shared key; `MergesClassesIff` is the exact statement. Titles arrive normalized, and DOI folding covers ASCII letters and blanks.
- Memory, policy engine, tool registry, sandbox, MCP transport, trace store and HTTP providers: they would only add easy members or need code that is not part of this model.
