# Verified model of the agent platform

A Dafny model of the parts of the platform whose correctness depends on how several
functions, runs or processes fit together, with proofs of what they promise. One module per
component:

- **The question pipeline.** `PlanSteps` (printing and parsing a step), `Grouper` (plan to
  batches), `BatchRunner` (one parallel batch and the RAG context), `Backpressure` (the
  admission counter and the semaphore, over all interleavings of threads), `Workflow` (the
  graph planner, grouper, executor loop, supervisor, as a machine over whole runs),
  `Sequential` (running a plan in batches refines running its steps one at a time).
- **The autonomous SRE loop.** `Lease` (leader election by several pods), `SreBreaker`,
  `Names` (incident keys and pod-to-deployment names), `Dedup`, `SreLoop` (what a pass does
  with an anomaly and what the verification job does later, over the keys of the shared store),
  `SreRuns` (whole runs of several pods: the parts of their turns, the verification jobs and
  the other writers of the store interleave freely), `SreOverlap` and `SreLimiter` (what
  deduplication and the restart limiter promise when turns overlap), `Detector` (consolidation and correlation
  of anomalies).
- **The YAML patcher.** `LinePatch` (the line loop with one flag), `LineRewrite` (the regular
  expressions on one line), `MemoryQuantity`, `YamlPatch` (the memory and the liveness patch),
  `YamlLines` (both said of the text: which lines, and what becomes of a line as manifests write
  it).
- **Expiring counters.** `KeyStore`, `RateLimiter`, `RedisBreaker`; the restart limiter in
  `SreLoop` is the contrasting one, because it renews its expiry.
- `Text` and `Sorting` hold the string operations and the stable sort of the standard library.

The outside world enters as arguments: planner replies, supervisor verdicts, tool results,
completion orders, health answers, restart outcomes and clock readings are arbitrary values.
Times are integers in microseconds; a store command on one key is atomic.

Where the code and its comments differ, the model follows the code:

- The breaker of the SRE loop never reopens on a failure in HALF_OPEN, because it opens only
  from CLOSED (agents/sre/scheduler.py:70); it skips exactly the passes of one reset period.
- `_try_acquire_lease` returns True on every API error, so the loser of a race to create the
  Lease leads beside the winner (agents/sre/scheduler.py:170-172). `Lease.CreateRace` shows
  it; mutual exclusion is proved for the pods that entered through the Lease.
- The verification is rescheduled for as long as a fix is pending, not once as the comment at
  agents/sre/healer.py:367 says.
- Two normalisations from pod to deployment exist. They differ exactly on names that are
  themselves keys of the manifest map and extend a later key; in the map these are
  `k8s-agent-deployment`, `frontend-next-deployment` and `llm-adapter-deployment`, so a restart
  of `k8s-agent-deployment` goes to `k8s-agent`.
- The result dictionary of a batch is keyed by the text of the step: of two equal steps both
  get the result that completed last (agents/executor/batch_runner.py:342-355). A batch keeps
  all its results exactly when its steps are distinct, and the planner lets equal steps through.
- Cutting the context after each result and cutting it once at the end may differ when a result
  of more than 12000 characters enters an empty context, because the guard `if new_context` lets
  it enter untrimmed (agents/executor/agent.py:84-91); `BatchRunner.ContextClosedForm` says
  exactly when. The RAG tool returns texts that start with a visible character, and for those
  the two always agree (`BatchRunner.VisibleResults`).
- Deduplication and the restart limiter read a key first and write it later. Deduplication holds
  unless two turns on one incident overlap. The limiter reads its counter, restarts, and then
  counts (agents/sre/healer.py:511-524, agents/sre/scheduler.py:385): a try is open from the
  reading that allows it until it is counted, and with `c` tries open whenever another is allowed
  the limit can be exceeded by `c` and by no more. Nothing bounds a turn to the 90 s of the Lease,
  and leader election fails open, so overlaps are not excluded.
- The rate limit admits up to `2 * max - 1` requests in one window length, and this is reached.
- A memory line whose first quantity is not one that the substitution reaches (no space after
  the colon) keeps its amount, so multiplying twice is not multiplying once by the product.
- A memory limit in single quotes is raised and loses its quotes, because the substitution without
  double quotes takes them for a part of the value (`YamlLines.SingleQuotedIsRaised`).

## Model

| member | source | states |
|---|---|---|
| PlanSteps.FromStringToString | agents/planner/models.py:12-35 | Parsing a printed valid step gives the step back, for every type and description. |
| PlanSteps.FromStringNormalises | agents/planner/models.py:27-35 | Parsing ignores the case of the type and white space around type and description. |
| PlanSteps.FromStringWithoutColon | agents/planner/models.py:27-35 | A text without a colon is both type and description. |
| PlanSteps.FromStringIsWritten | agents/planner/models.py:12-35 | What is parsed was written there; an unknown type or an empty description is rejected. |
| PlanSteps.ReadersAgree | agents/executor/batch_runner.py:101-137 | On every printed step the grouper's and the executor's prefix test, the batch runner's type and query slicing and the reasoning task recover the type and the description; only a REASONING step lacks a handler. |
| PlanSteps.NameFacts | agents/executor/step_handlers.py:282-290 | The handler table covers exactly the step types other than REASONING. |
| Grouper.GroupPlanIntoBatches | agents/planner/grouper.py:28-41 | The loop returns a grouping: the batches concatenate to the plan, REASONING steps are alone, no two tool batches are adjacent; and it is the grouping that the specification function computes. |
| Grouper.GroupIsGrouping | agents/planner/grouper.py:5-7 | The specification function satisfies the promise of the grouper for every plan and yields at most one batch per step. |
| Grouper.GroupingIsUnique | agents/planner/grouper.py:5-7 | Only one list of batches satisfies that promise. |
| BatchRunner.AddToTruncated | agents/executor/agent.py:84-91 | Cutting a context before a result is added gives what cutting it afterwards gives if and only if the context is short, or the result is blank and trimming and cutting the context may be exchanged, or the result is not blank and the trimmed sum is still too long; for all contexts and results. |
| BatchRunner.AddResultsAppend | agents/executor/batch_runner.py:359-366 | Folding the results batch by batch is folding them all at once. |
| BatchRunner.ContextClosedForm | agents/executor/batch_runner.py:90-98 | Across any number of truncations the context is, after every result, what it would be without a limit, cut once to the header and its last 12000 characters, if and only if each result that finds the context empty is safe to cut for the one that follows it. |
| BatchRunner.VisibleResults | agents/researcher/rag_retriever.py:286-299 | Results that start with a visible character, as all texts of the RAG tool do, meet that condition, whatever their length and the white space at their end. |
| BatchRunner.TrimmedResults | agents/executor/batch_runner.py:364-366 | Trimmed results meet it too. |
| BatchRunner.TrimmedAreJoined | agents/executor/batch_runner.py:364-366 | Without a limit the context of trimmed results is the results in order, one per line. |
| BatchRunner.LongBlankResult | agents/executor/agent.py:84-91 | Results that are not safe, so that the closed form fails: a blank one of more than 12000 characters that comes first, followed by any trimmed one that fits. |
| BatchRunner.ContextIsBounded | agents/executor/batch_runner.py:90-98 | The context never exceeds the header and 12000 characters, and a cut one ends as the whole one did. |
| BatchRunner.RetrievalsAreRag | agents/executor/batch_runner.py:364-366 | Of the printed steps exactly the RAG_RETRIEVAL ones enter the context. |
| BatchRunner.SeenIsOutcome | agents/executor/batch_runner.py:342-362 | For one completion order and its results, every step is given its own result if and only if equal steps of the batch have equal results. |
| BatchRunner.ResultsAreSafe | agents/executor/batch_runner.py:342-362 | A batch keeps all its results, whatever they are and however they complete, if and only if its steps are distinct. |
| BatchRunner.CollectHolds | agents/executor/batch_runner.py:347-355 | The dictionary holds for each completed step the result of its last completion. |
| BatchRunner.CollectAsCompleted | agents/executor/batch_runner.py:342-355 | The loop over completed futures leaves, for every step text of the batch, the result of its last completion. |
| BatchRunner.AnswerOfOne | agents/executor/batch_runner.py:360-363 | The answer of one step is its type between dashes and its result on the next line. |
| BatchRunner.AnswersInRow | agents/executor/batch_runner.py:359-368 | The answer of two batches in a row is the one after the other with a blank line between, so the parts come in the order of the batch. |
| BatchRunner.Combine | agents/executor/batch_runner.py:357-368 | The loop over the batch builds the answer and the context of the results in batch order; `AnswerOfOne`, `AnswersInRow` and `AddResultsAppend` say what they are. |
| BatchRunner.RunParallelBatch | agents/executor/batch_runner.py:316-368 | A rejected batch leaves counter and context alone and answers "busy"; an admitted one returns the answer and the context of the results seen. |
| BatchRunner.NextContextIs | agents/executor/agent.py:84-91 | The single-step path extends the context as the parallel path does for that step. |
| Backpressure.BackpressureHolds | agents/executor/batch_runner.py:50-54 | Under every interleaving the pending counter equals the admitted steps that have not started and stays in 0..12, and at most 4 guarded steps run. |
| Backpressure.NoDeadlock | agents/executor/batch_runner.py:105-114 | While admitted work remains, some thread can take a step. |
| Backpressure.AdmittedOrRejected | agents/executor/batch_runner.py:327-340 | A batch is rejected exactly when the queue would hold more than twelve steps, and then nothing changes. |
| Backpressure.SmallBatchesStartAtOnce | agents/executor/batch_runner.py:343-346 | In every run the steps of a batch of at most four can start at once; a larger batch has four workers. |
| Backpressure.WorkShrinks | agents/executor/batch_runner.py:343-348 | Every step of a thread decreases the remaining work by one. |
| Backpressure.EveryScheduleDrains | agents/executor/batch_runner.py:327-348 | Between any two points of any run, with batches admitted and rejected meanwhile, the moves of threads are exactly the work there was plus three per step admitted minus the work left; a point where no thread can move has finished every step, with the counter at zero and all permits free. |
| Backpressure.EachBatchFinishes | agents/executor/batch_runner.py:343-348 | Each admitted batch is bounded by its own work, which only its own steps use up and which is used up exactly when they have all finished, whatever other batches arrive. |
| Backpressure.NewBatch | agents/executor/batch_runner.py:339-346 | A batch of n steps enters with 3 n moves to make. |
| Backpressure.OnlyTheSemaphoreBlocks | agents/executor/batch_runner.py:105-114 | A batch with work left can move by itself unless it holds no permit and all four are taken. |
| Backpressure.BatchReleasesCounter | agents/executor/batch_runner.py:339-340 | When the steps of a batch have started, the counter holds the waiting steps of the other batches only. |
| Workflow.ValidatePlan | agents/planner/agent.py:72-86 | The loop keeps the printed form of exactly the steps that parse, in order, capped at eight. |
| Workflow.ValidInOrder | agents/planner/agent.py:72-86 | Validation treats every element by itself and keeps the order. |
| Workflow.ValidOfOne | agents/planner/agent.py:72-86 | An element is kept, in printed form, exactly when it is a text that parses. |
| Workflow.PlanByWords | agents/planner/agent.py:89-107 | A question with one of four words gets one of two fixed plans, by whether it has one of two others, whatever the model replies. |
| Workflow.PlanByModel | agents/planner/agent.py:72-86 | Any other question gets the first eight valid steps of the reply, or one general reasoning step when there is none. |
| Workflow.PlanIsSound | agents/planner/agent.py:89-107 | Whatever the model replies, the plan after fallbacks and fast paths has one to eight steps, each the printed form of a valid step. |
| Workflow.NeverStuck | orchestration/workflow_engine.py:62-82 | In every state some answer of the world fits, so a run that has not ended can go on. |
| Workflow.RunsAreBounded | orchestration/workflow_engine.py:66-96 | Every run has at most 22 node executions and two planning rounds, and the retry counter equals the number of re-plans throughout. |
| Workflow.GuardAndRouter | orchestration/workflow_engine.py:66-90 | The iteration guard never decides, and the router plans again exactly when the supervisor's decision is REPLAN. |
| Workflow.CountInvKept | agents/supervisor/quality_scorer.py:79-89 | One node execution keeps the retry counter equal to the re-plans of the log and within its limit. |
| Workflow.Clamp | agents/supervisor/quality_scorer.py:55-58 | The nearest score between 0 and 10. |
| Workflow.StepFollows | agents/supervisor/quality_scorer.py:137-200 | What one node execution does to node, round, counter and log, including the forced ACCEPT and the empty answer, which scores zero and is re-planned exactly while the counter allows it. |
| Workflow.NodesKeep | agents/executor/agent.py:104-109 | Each node changes its own fields of the state and no other. |
| Workflow.SupervisorDecides | agents/supervisor/quality_scorer.py:183-200 | An answer with a visible character gets the decision and the score of the model, but ACCEPT when no re-plan is left. |
| Workflow.VerdictIsFollowed | orchestration/workflow_engine.py:84-96 | In every run the supervisor goes back to the planner exactly when it has not done so before and the answer is blank or the model asks for it, and otherwise ends the run. |
| Workflow.AnswerOfNode | agents/executor/agent.py:62-109 | In every run the executor answers with the reasoning text, the single step's own result, the busy answer of a batch that does not fit, or the parts of all results. |
| Workflow.EmptyAnswerIsReplanned | agents/supervisor/quality_scorer.py:137-200 | Every run that ends was accepted with a score between 0 and 10; one that ends with a blank answer has used its re-plan and scores zero. |
| Workflow.PipelineTrace | agents/executor/agent.py:46-104 | When the supervisor is reached, the batches executed in the round are the unique grouping of the plan and `current_step` is the plan length. |
| Workflow.EveryToolStepHasAHandler | agents/executor/batch_runner.py:132-137 | Every step of a tool batch that reaches the executor has a handler, so "no reconocido" cannot be answered. |
| Workflow.ExecutorContext | agents/executor/agent.py:67-95 | One executor node adds the RAG results that the batch's steps were given, in batch order, and nothing when the batch is rejected; these are the steps' own results when equal steps agree. |
| Workflow.ContextOfRun | agents/executor/agent.py:84-104 | Over a whole run, with its re-plan, the context is the fold of the RAG results its steps were given, batch after batch; it is their closed form for results that start visibly and whenever the condition of the closed form holds, and the join of trimmed ones, cut once. |
| Sequential.BatchingRefinesOneByOne | agents/executor/batch_runner.py:316-368 | In every round of every run of which no batch was rejected and no equal steps disagreed, the supervisor finds the RAG results of the round in plan order and the context that running the steps of the plan one at a time, each with its own result, makes of the context before the round; so neither grouping nor completion order shows. |
| Sequential.WholeRunIsOneByOne | agents/executor/batch_runner.py:316-368 | Over a whole run, with its re-plan, of which no batch was rejected and no equal steps disagreed, the context is what running all steps of all plans one at a time makes of the empty one; for RAG results that start visibly it is their sum without a limit, cut once, and trimmed ones are joined in plan order. |
| Sequential.SameToolsSameContext | agents/executor/batch_runner.py:342-368 | When tools answer a step always alike, the context after a round depends on the plan and the context before it alone, repeated steps included. |
| Sequential.DistinctPlanIsKept | agents/executor/batch_runner.py:347-355 | In a plan without repeated steps every step of every batch keeps its own result, whatever the steps return. |
| Sequential.RagInRow | agents/executor/batch_runner.py:357-368 | The RAG results of two batches in a row are those of the one after those of the other. |
| Workflow.EqualStepsLoseAResult | agents/planner/agent.py:72-86 | A reply that names a tool step twice is kept by validation and put into one batch, which loses one of two different results in some completion order; for every tool step. |
| Lease.OneLeader | agents/sre/scheduler.py:119-151 | In every run two pods that entered through the Lease are in the loop body together only if one is more than 90 s past the time its pass captured; so passes that end in time exclude each other. |
| Lease.Takeover | agents/sre/scheduler.py:127-141 | A pod that takes over from another captured a time more than 90 s after that one's last renewal. |
| Lease.AloneItLeads | agents/sre/scheduler.py:119-169 | A pass that nobody interferes with leads exactly when there is no Lease, the pod holds it, or it was not renewed for more than 90 s, and then renews it; else it changes nothing. |
| Lease.OvertakenStepsAside | agents/sre/scheduler.py:142-146 | A pod whose read is overtaken by a renewal steps aside. |
| Lease.ErrorsLead | agents/sre/scheduler.py:170-172 | Any other failure of the API makes the pod lead and leaves the Lease alone. |
| Lease.CreateRace | agents/sre/scheduler.py:152-172 | A concrete run in which the loser of the creation race leads beside the winner. |
| Lease.InvKept | agents/sre/scheduler.py:106-172 | Every step of every pod keeps the invariant that ties the stored version, the holder and the leading pods together. |
| RateLimiter.RateLimiter.CheckRateLimit | interfaces/api/auth.py:212-229 | A request is admitted exactly while the counter of its lifetime is within the maximum; the expiry is set by the first request only. |
| RateLimiter.AtMostLimitPerLifetime | interfaces/api/auth.py:214-218 | At most `max` requests are admitted in one lifetime of the key. |
| RateLimiter.AtMostTwiceTheLimit | interfaces/api/auth.py:214-218 | In every half-open interval of one window length at most `2 * max - 1` requests are admitted, for every request sequence. |
| RateLimiter.BoundIsReached | interfaces/api/auth.py:214-218 | For every limit a request sequence reaches that bound. |
| RedisBreaker.CircuitBreaker.IsOpen | core/circuit_breaker.py:59-80 | Whether the call is rejected, and the move to HALF_OPEN after the recovery time. |
| RedisBreaker.CircuitBreaker.RecordSuccess | core/circuit_breaker.py:82-94 | The three keys after a success, by the state that was read. |
| RedisBreaker.CircuitBreaker.RecordFailure | core/circuit_breaker.py:96-109 | The three keys after a failure, with their expiry times. |
| RedisBreaker.StateReads | core/circuit_breaker.py:59-109 | What the state reads after a success, a failure and a question, and for how long. |
| RedisBreaker.CounterCountsFailures | core/circuit_breaker.py:96-109 | The counter reads the failures since the last success or expiry, in every history. |
| RedisBreaker.RejectsExactlyAfterATrip | core/circuit_breaker.py:59-80 | A call is rejected if and only if a failure that met the threshold is less than `recovery_timeout` ago and no success came after it. |
| SreBreaker.CircuitBreaker.State | agents/sre/scheduler.py:51-57 | Reading the state moves OPEN to HALF_OPEN after the reset time and changes nothing else. |
| SreBreaker.CircuitBreaker.RecordFailure | agents/sre/scheduler.py:68-77 | The fields after a failure; only CLOSED opens. |
| SreBreaker.ClosedIsBelowThreshold | agents/sre/scheduler.py:59-77 | In every reachable state CLOSED implies fewer failures than the threshold since the last success. |
| SreBreaker.SkippedExactlyDuringTheReset | agents/sre/scheduler.py:295-298 | A pass is skipped if and only if the failure that tripped the breaker is at most `reset_seconds` ago and no success came after it. |
| SreBreaker.TripIsUnique | agents/sre/scheduler.py:68-77 | Since the last success at most one failure tripped the breaker: a failure in HALF_OPEN does not open it again. |
| Names.IncidentKeyInjective | agents/sre/models.py:38-41 | Different anomalies have different keys, even when resource names contain colons. |
| Names.TtlFollowsIssue | agents/sre/scheduler.py:246-250 | The deduplication time recovered from a key is the one of its issue type, even when the resource name contains colons. |
| Names.DedupTable | agents/sre/scheduler.py:209-243 | The times of the issue types. |
| Names.NormalisationsAgree | agents/sre/healer.py:502-508 | The restart's and the handoff's normalisation give the same name if and only if the name is not a key that properly extends a later key (with no earlier extension). |
| Names.ShadowedInTheMap | agents/sre/bug_library.py:65-104 | Exactly `k8s-agent-deployment`, `frontend-next-deployment` and `llm-adapter-deployment` are such names in the manifest map. |
| Names.ReadingsAgree | agents/sre/scheduler.py:378-415 | The scheduler's two loops over the map read the same names as the healer's, for every map and name. |
| Names.PodsOfDeployment | agents/sre/healer.py:502-508 | A deployment's name with a dash and a suffix is read as that deployment, unless an earlier key covers it. |
| Names.UnknownStays | agents/sre/healer.py:502-508 | A name that neither is a key nor extends one by a dash stays as it is. |
| Names.ManifestKeyIsLongestPrefix | agents/sre/bug_library.py:484-492 | A manifest is found exactly for the known resources, and it is the one of the longest key that starts the name. |
| Dedup.StoreDedup.Mark | agents/sre/scheduler.py:267-272 | Marking sets the key with the deduplication time of its issue type. |
| Dedup.MemoryDedup.IsDuplicate | agents/sre/scheduler.py:258-264 | The fallback's answer, and that an entry found too old is dropped. |
| Dedup.OldEntryIsDropped | agents/sre/scheduler.py:258-264 | Asking drops the entry of the incident exactly when it is too old, and no other. |
| Dedup.StoreMeetsSpec | agents/sre/scheduler.py:253-257 | For every history the store answers "duplicate" if and only if the incident was marked less than its time ago. |
| Dedup.MemoryMeetsSpec | agents/sre/scheduler.py:258-264 | For every history so does the in-memory fallback. |
| SreLoop.Agent.CheckRestartLimit | agents/sre/healer.py:532-542 | The limit is reached exactly when the live counter is at least the maximum. |
| SreLoop.Agent.RecordRestartAttempt | agents/sre/healer.py:545-557 | The counter goes up by one and its expiry is renewed. |
| SreLoop.Agent.HandoffToCamael | agents/sre/healer.py:629-651 | A handoff starts exactly when the issue is fixable and the key is free, and then takes the key for 7200 s. |
| SreLoop.Agent.ScheduleVerification | agents/sre/healer.py:424-456 | One job per incident, due one delay later; an outstanding one is replaced. |
| SreLoop.Agent.ProcessAnomaly | agents/sre/scheduler.py:354-440 | One turn of the loop: the whole new state of the store, the jobs, the handoffs of the pass, and its effects. |
| SreLoop.Agent.RunPass | agents/sre/scheduler.py:349-440 | The loop over the anomalies is the fold of its turns, starting with no handoff dispatched. |
| SreLoop.Agent.RunVerificationJob | agents/sre/healer.py:312-411 | The verdict, the rollback or the rescheduling of one verification. |
| SreLoop.KeysAgree | agents/sre/scheduler.py:375-415 | The counter key that the healer checks is the one that the scheduler records, and the key that a handoff takes is the one that the verification reads, though each is computed by its own loop. |
| SreLoop.KeysFollowOwner | agents/sre/healer.py:498-508 | Counter and handoff keys come from the namespace and the owner where it is known, else the resource; the incident key from namespace, resource and issue. |
| SreLoop.TurnDoes | agents/sre/scheduler.py:354-440 | A turn does nothing for a duplicate; else it acts, restarts exactly when a restart was chosen below the limit, and hands over exactly after a restart that was carried out, of a fixable issue, not yet dispatched in the pass, with the key free. |
| SreLoop.TurnLeaves | agents/sre/scheduler.py:376-388 | What a turn leaves in the store: the incident a duplicate for its time, the counter one higher for a window, a handoff for 7200 s, and nothing else. |
| SreLoop.PassInOrder | agents/sre/scheduler.py:354 | A pass takes the anomalies in their order. |
| SreLoop.Agent.RecordedKey | agents/sre/scheduler.py:375-384 | The loop over the manifest map finds the key of the restart counter. |
| SreLoop.Agent.VerifiedKey | agents/sre/scheduler.py:406-418 | The loop over the map finds the deployment to dispatch and to verify. |
| SreRuns.TurnIsProcess | agents/sre/scheduler.py:354-440 | The parts of a turn, when nothing comes between them, add up to the turn of the loop. |
| SreOverlap.OnlyOverlapsRepeat | agents/sre/scheduler.py:355-388 | In every run of several pods two actions on one incident are at least its deduplication time apart unless their turns overlap: until the second one, the first pod had not marked the incident or the second pod had looked. |
| SreOverlap.SpacedExactly | agents/sre/scheduler.py:355-388 | In every run the log keeps the actions on an incident its deduplication time apart if and only if no two actions in overlapping turns come sooner. |
| SreOverlap.ActionsAreSpaced | agents/sre/scheduler.py:355-388 | So it does in every run in which no two pods are between look and mark of that incident at once, whatever else overlaps. |
| SreOverlap.TwoLooksRepeat | agents/sre/scheduler.py:152-172 | From every reachable state in which two pods have looked at one incident, both can act on it at the same time. |
| SreRuns.HandoffsAreSafe | agents/sre/healer.py:351-377 | In every run, however the parts of turns and the verifications of all pods interleave, two handoffs of one deployment are at least 7200 s apart, and no verification rolls it back in the 7200 s after a handoff. |
| SreLoop.OneHandoffPerPass | agents/sre/scheduler.py:417-420 | One pass hands a deployment over at most once, however long it takes. |
| SreLoop.VerifiedExactlyAfterRestart | agents/sre/scheduler.py:403-438 | A turn schedules a verification exactly when it carried out a restart, for that incident, one delay after its end. |
| SreLoop.VerificationWaitsForHandoff | agents/sre/healer.py:293-309 | After a turn that hands an anomaly over, the verification that the turn scheduled finds a pending fix for 7200 s. |
| SreLimiter.RestartsAreLimited | agents/sre/healer.py:511-557 | In every run, with the check, the restart and the count of each pod as separate steps: when at most `c` tries of a target are open whenever another one is allowed, the target is restarted at most the maximum plus `c` times in any interval of one window length; so the limiter is a sliding window when no two tries are open at once. |
| SreLimiter.BoundIsReached | agents/sre/healer.py:511-557 | For every maximum and every `c` a run reaches that bound. |
| SreLimiter.AllRestart | agents/sre/healer.py:511-557 | From every reachable state below the limit all pods that have looked can restart one target at the same time, however many they are. |
| SreLoop.JobRunsOnce | agents/sre/healer.py:333-411 | A verification either writes one terminal verdict and its job is gone, or reschedules exactly that job; it waits exactly when unhealthy with a fix pending, and rolls back exactly when unhealthy, recent and with none; and each of the four verdicts is written exactly in its case. |
| SreRuns.VerificationRuns | agents/sre/healer.py:312-411 | A verification in a run writes the effects, the rollback and the verdict of one verification, and touches no key. |
| SreRuns.VerdictsAreTrue | agents/sre/healer.py:333-411 | In every run each verdict was written by a verification of its incident that was due and found what it says. |
| SreRuns.AtAnyTime | agents/sre/scheduler.py:345-354 | Idle pods may start a pass, with nothing dispatched, or look at an anomaly at any time; pull requests come and go at any time; a pass may end with an exception; due verifications run. |
| SreRuns.NoJobNoRuns | agents/sre/healer.py:446-456 | Without an outstanding job, and until its pod schedules a verification of the incident again, the incident is not verified, whatever else happens. |
| SreRuns.ChainsEnd | agents/sre/healer.py:351-376 | From any point of any run, with no new handoff of its deployment and no pull request or other verification of its incident, a chain of verifications ends after a number of runs bounded by the remaining lifetime of its keys divided by the delay, whatever else is handled meanwhile. |
| SreRuns.DeadlineExists | agents/sre/healer.py:293-309 | In every reachable state the keys that make a job wait carry an expiry, so its waiting has a deadline. |
| Detector.DetectAnomalies | agents/sre/detector.py:49-74 | The result is what detection promises of the five lists in source order. |
| Detector.Consolidate | agents/sre/detector.py:56-68 | The loop over the dictionary keeps, per key, the earliest occurrence of the highest severity, in order of first appearance. |
| Detector.DetectedFacts | agents/sre/detector.py:56-74 | The detected anomalies have distinct keys, cover exactly the observed keys, none is less grave than another of its key, and none follows a less grave one: CRITICAL, HIGH, MEDIUM, then the rest. |
| Detector.DetectionIsUnique | agents/sre/detector.py:56-74 | The promise determines the output completely, order included. |
| Detector.GroupByOwner | agents/sre/detector.py:109-118 | The loop fills the insertion-ordered dictionary of groups. |
| Detector.CorrelateAnomalies | agents/sre/detector.py:109-156 | The method computes the specified correlation. |
| Detector.CorrelationConserves | agents/sre/detector.py:120-156 | The output is, as a multiset, the anomalies outside big groups and one stand-in per big group; it descends in severity; the weights sum to the number of inputs. |
| Detector.CorrelationInFields | agents/sre/detector.py:109-149 | In the fields of the anomalies: one that is alike (pod, owner, namespace, issue) to fewer than three stays as often as it occurs; for every other one there is a CRITICAL Deployment anomaly of its owner with the number and the first five names of those alike to it; and there is nothing else. |
| Detector.GroupsInOrder | agents/sre/detector.py:109-121 | The groups come in the order in which their first pods were observed. |
| Detector.CorrelationKeepsOrder | agents/sre/detector.py:120-156 | Within one severity the output keeps the order: first what belongs to no group, then the groups one after another. |
| Detector.NamesInOrder | agents/sre/detector.py:144-147 | The pods named in a stand-in come in their order. |
| Detector.NoBigGroupLeft | agents/sre/detector.py:121-149 | No group of three or more pods with one owner, namespace and issue remains. |
| Detector.CorrelationIsIdempotent | agents/sre/detector.py:93-156 | A second application gives the same multiset. |
| Sorting.SortDescIs | agents/sre/detector.py:71-74 | The library sort permutes, descends and keeps the order within a rank. |
| Sorting.SortedIsUnique | agents/sre/detector.py:152-155 | No other sequence does, so any stable sort gives this one. |
| LinePatch.Apply | agents/sre/bug_library.py:152-195 | The flag loop rewrites exactly the first line of its kind in each opened block, leaves every other line in place, and fails exactly when a rewriting fails. |
| LinePatch.InBlockNext | agents/sre/bug_library.py:244-272 | One step of the flag is one step of "the block was opened and neither left nor used up". |
| LinePatch.OneTargetPerBlock | agents/sre/bug_library.py:182-184 | Between two rewritten lines the block was opened again. |
| LinePatch.NothingAfterClose | agents/sre/bug_library.py:186-190 | After a line that leaves the block nothing is rewritten until it is opened again. |
| LinePatch.Composes | agents/sre/bug_library.py:146-195 | One patch after another is a third one on a text if and only if it is so on each rewritten line, or both fail. |
| LinePatch.SplitJoined | agents/sre/bug_library.py:195 | Joining lines and splitting the text again loses exactly an empty last line. |
| LineRewrite.SubTwice | agents/sre/bug_library.py:170-181 | A second substitution of the value overrides the first, on every line. |
| LineRewrite.KeyKept | agents/sre/bug_library.py:170-181 | A rewritten line still starts with its key behind the same indentation. |
| LineRewrite.FirstValueAfter | agents/sre/bug_library.py:254-263 | After the substitution the search captures the new value. |
| MemoryQuantity.ParseFormatted | agents/sre/bug_library.py:125-143 | Printing a number of MiB and parsing it gives it back, for all of them. |
| YamlLines.ParseWritten | agents/sre/bug_library.py:125-136 | What a number with any of the four units, or none, reads as in MiB. |
| YamlLines.FormatWritten | agents/sre/bug_library.py:139-143 | An amount is written in GiB exactly when it is a whole number of them. |
| YamlLines.TimesIsFloor | agents/sre/bug_library.py:166 | The product is cut down to whole MiB. |
| MemoryQuantity.SearchAfter | agents/sre/bug_library.py:164-181 | After the substitution the search captures the new quantity if and where a rewritable place comes no later than the first quantity, and otherwise the same as before. |
| YamlPatch.PatchMemoryLimit | agents/sre/bug_library.py:146-195 | The memory patch rewrites the targets of the `limits:` blocks and nothing else. |
| YamlPatch.PatchLivenessDelay | agents/sre/bug_library.py:239-272 | The liveness patch does so for `livenessProbe:` blocks and never fails. |
| YamlLines.LimitsTargets | agents/sre/bug_library.py:157-191 | A line is rewritten by the memory patch exactly when it starts with `memory:` below a `limits:` with only blank lines, comments, lines without a colon and `cpu:` lines in between. |
| YamlLines.LivenessTargets | agents/sre/bug_library.py:244-270 | By the liveness patch exactly when it starts with `initialDelaySeconds:` below a `livenessProbe:` with no other delay and none of three headers in between. |
| YamlLines.MemoryLimitIsRaised | agents/sre/bug_library.py:146-195 | On every text those lines are raised, and read as the product when the substitution reaches their quantity; all others stay. |
| YamlLines.LivenessDelayIsRaised | agents/sre/bug_library.py:239-272 | On every text those delays read as the sum; all other lines stay. |
| YamlLines.WrittenLimitIsRaised | agents/sre/bug_library.py:162-181 | A limit as manifests write it, quoted or not, with any indentation, unit and comment, becomes the same line with the product of its amount. |
| YamlLines.SingleQuotedIsRaised | agents/sre/bug_library.py:162-181 | A limit in single quotes is raised and loses its quotes. |
| YamlLines.WrittenFractionFails | agents/sre/bug_library.py:125-136 | A limit written with a fraction makes the patch raise, whatever the factor. |
| YamlLines.WrittenDelayIsRaised | agents/sre/bug_library.py:252-263 | A delay as manifests write it becomes the same line with the sum. |
| YamlPatch.PatchMemoryAndLiveness | agents/sre/bug_library.py:275-279 | Both patches in a row, with the text joined and split in between, are the composition on the lines up to an empty last line. |
| YamlPatch.AmountAfter | agents/sre/bug_library.py:164-181 | What a rewritten memory line reads as. |
| YamlPatch.LimitNeverShrinks | agents/sre/bug_library.py:164-168 | A factor of at least 1 never shrinks a limit, on every line. |
| YamlPatch.RequestsStayBelowLimits | agents/sre/bug_library.py:186-190 | A `memory:` line under `requests:` is unchanged, and a request that was at most a limit still is. |
| MemoryQuantity.FoundParses | agents/sre/bug_library.py:125-136 | A quantity that the search finds fails to parse exactly when it is written with a fraction point. |
| YamlPatch.FailsExactlyOnFractions | agents/sre/bug_library.py:125-136 | The memory patch raises exactly when the quantity found in a line that it would rewrite is written with a fraction point. |
| YamlPatch.FactorsMultiply | agents/sre/bug_library.py:164-181 | Multiplying by whole `a` and then `b` is multiplying by the product if and only if on each rewritten line a rewritable place comes no later than the first quantity, or none exists, or the numbers make no difference (or both ways fail). |
| YamlPatch.CompositionCanFail | agents/sre/bug_library.py:164-181 | A concrete text on which doubling twice differs from multiplying by four. |
| YamlPatch.DelaysAdd | agents/sre/bug_library.py:254-263 | Extending the delay by `a` and then `b` is extending it by the sum, on every text. |
| YamlPatch.PatchesCommute | agents/sre/bug_library.py:275-279 | The memory and the liveness patch commute on every text, failures included. |

## Left out

- Language models, prompts, language detection, translation, media tags, the answer cap and `run_reasoning_step`'s text: a reasoning step returns an arbitrary answer and leaves the context as it is.
- Kubernetes, Prometheus, Qdrant, Postgres, Vault, chat and repository clients: only the Lease object, keys with expiry and arbitrary answers remain.
- Outages of the shared store and the fail-open paths they lead to, except in `Lease`; `Dedup` models each backend used consistently.
- `_patch_cpu_limit`: it has no rule for leaving a `limits:` block, so confinement does not hold of it.
- The pull request and change management flow of Camael, runbooks and postmortems: a pending pull request is a key that may be saved or deleted at any time.
- `decide_action`: the choice of the action is arbitrary, which covers every confidence and every table.
- `require_internal_secret`: the same counter as `RateLimiter`, with the limits 60 and 60 s.
- `_retry` of the step handlers, the regular expressions of `security/`, routing and ranking.
- The lines of a text are the unit of the YAML patches; `splitlines` is modelled only for newlines, the only line end that joined lines contain.
- RunParallelBatch: handler exceptions are part of the arbitrary result of a step; the thread interleavings behind the completion order are in `Backpressure`.
- HandoffsAreSafe: a verification is one step at the time of its check of the keys; a rollback that was decided just before a handoff may be carried out after it.
- The exceptions in `SreRuns`: one that ends a pass comes before the action or after the mark, not in between.
- BatchingRefinesOneByOne: speaks of rounds without a rejected batch; the results of a rejected one are missing from the context, as `Workflow.ContextOfRun` says for all runs.
- RunPass: an exception inside the loop, which ends the pass, is not modelled.
- PatchMemoryLimit: the multiplier is a real number, so the rounding of floating point above 2^53 is not captured; digits are ASCII.
- Case conversion and digits in `Text` are those of ASCII; other alphabets are not part of this model.
- IsOpen, RecordSuccess and RecordFailure of `RedisBreaker`: each is one step, though it takes several commands on keys that processes share; calls that interleave are not covered.
- CheckRateLimit: incrementing the counter and setting its expiry are one step; a process that stops between the two is not covered.
