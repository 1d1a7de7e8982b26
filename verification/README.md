# llama-agents: verified models of the operator, the stream levels and the smaller algebras

The project models five parts of the repository and proves what they promise over whole runs and all inputs.

1. **The Kubernetes operator, one LlamaDeployment at a time** (`Operator`, `Runs`, `InFlight`, `Provenance`,
   `Retries`, `Pauses`, `Rollouts`, `Slots`, `Tracking`, `Scenarios`, `History`, `BuildIds`, `Controller`). A state holds the resource
   (generation, spec, status), its build Jobs and its runtime Deployment. `Operator` gives each stage of a reconcile as a function; `Controller.Reconciler`
   is the same reconciler as a class whose methods assign status fields and create, delete and patch objects, each
   proved equal to its function. A run is any sequence of reconciles (with any answers from the cluster), spec edits,
   Job progress, Job disappearance and deletions of the Deployment.
2. **The operator's other loops** (`Capacity`, `ReplicaSets`, `Labels`, `Releases`): the capacity gates over a whole
   namespace, the choice of the ReplicaSet to scale down, DNS-1035 labels and Job names, the release history.
3. **Stream levels of workflows** (`Matching`, `StreamLevels`, `Routing`, `Traversal`, `Guards`): a level as a least fixpoint, the
   worklist and collapse that compute it, and what the recursion guard costs.
4. **The resource manager** (`Resources`, `Manager`): cache-free evaluation, and the class with its two caches.
5. **Retry policies, return annotations, dotted-path updates** (`RetryPolicy`, `Delays`, `Annotations`,
   `DotPaths`, `Documents`).

## Where the code does less than it is meant to

Each of these has a lemma with an input that shows it, for the operator a run from a fresh deployment, and a lemma with
the exact condition.

- A build Job may start a second pod after a failed one (backoff limit 1), and the operator reads the count of failed
  pods. So it can report a build as failed while the Job runs, and a later edit then starts a second Job beside it
  (`InFlight.TwoBuildsInFlight`). A run keeps every unfinished Job tracked exactly when this write-off never happens
  (`InFlight.TrackedThroughoutExactly`), and it never happens if no Job goes on to a second pod
  (`InFlight.SinglePodsNeverWrittenOff`). A build that was written off can still succeed, and then its artifact exists
  while the generation has failed for good (`Scenarios.WrittenOffBuildMaySucceed`).
- Job names are cut at 63 characters. Only built artifacts are deployed, in every run, exactly when the Job names of a
  deployment tell its builds apart or its name can hold no Job (`Provenance.DeploysOnlyBuiltExactly`). Names of up to
  40 characters are safe; at 56 and 62 characters the Job name ends in a hyphen and is refused (`Labels.JobNameIsLabel`).
- A failed Job deleted for retry while the phase is still a terminal failure is never re-created at that generation
  (`Retries.RetryRecreatesExactly`, `Retries.StrandedRetryNeverBuilds`), although `operator/CHANGELOG.md:77` announces
  retries when the generation advances past the failed one. An edit after a failed build leads there
  (`Scenarios.StrandedRetryIsReachable`).
- The failed generation doubles as the build-retry token. A Deployment paused by remediation stays paused if the next
  generation retries its build, even when that build is then deployed (`Pauses.RetryOutlivesPause`,
  `Pauses.RolloutUnpausesExactly`; the run is in `Scenarios.PausedBuildIsReachable`).
- For the same reason a generation that has retried its build and then fails to roll out is never scaled down: it is
  reported as Failed and keeps its failing replica (`Rollouts.FailedIsScaledDownExactly`,
  `Rollouts.FailingReplicaStays`; the run is in `Scenarios.FailingReplicaIsReachable`).
- And in such a generation one refused apply is final; otherwise it is tried again
  (`Scenarios.RefusedApplyIsRetriedExactly`; the run is in `Scenarios.FinalRefusalIsReachable`).
- The capacity limits are not invariants: code pushed to waiting deployments starts builds without the gates being
  asked (`Capacity.TwoPushesFromFresh`). `Slots` says, from the state before a step and the answers it gets, exactly
  which ungated steps take up a slot; a run of a namespace stays within the limits exactly when no such step happens
  while all slots are taken (`Capacity.RunKeepsLimitsExactly`).
- The guard of the stream-level traversal can lose types of a fan-out step that feeds itself, also from the level that
  is reported for that step (`Guards.GuardLosesType`). It never adds any, and loses none when no step feeds itself
  (`Guards.UnfedTraversalIsExact`), which can be told from the workflow. Its report is complete if and only if one more
  round of the documented equations would add nothing to it (`Guards.ReportIsExactExactly`).
- `wait_chain` indexes its strategies by the number of attempts, which the runtime counts from one, so the first of
  several strategies is never used (`RetryPolicy.FirstOfChainIsUnused`, `RetryPolicy.ChainIsInOrderExactly`).

## Modelling choices

- Each reconcile is one atomic step: its reads are fresh and its status writes succeed.
- SHA-256 is a function parameter of which only the form of its result (64 hexadecimal digits) is used.
- What a reconcile reads from elsewhere (Secrets, pod failures, Deployment health, the clock, the answers to reads of
  Jobs and of the Deployment and to create, delete and apply calls) is an input and arbitrary. The capacity verdict is an input in `Operator` and computed in `Capacity`.
- Event types and steps are named by strings; the class hierarchy is a parameter, reflexive on event classes.
- A resource name stands for one descriptor. Factories are pure and may fail.
- Times are reals and random draws are any value of their interval.

## Model

| member | source | states |
|---|---|---|
| Labels.LabelIsPointwise | operator/internal/controller/resources.go:332-334 | the label grammar of section 2.3.1 of RFC 1035 holds exactly when the first character is a letter, the last a letter or digit, and all are letters, digits or hyphens |
| Labels.IsValidDNS1035Label | operator/internal/controller/resources.go:335-359 | the index loop accepts exactly the lower-case labels of that grammar with at most 63 characters |
| Labels.JobNamesCollide | operator/internal/controller/resources.go:86-92 | two builds of a deployment share a Job name exactly when the part of their IDs that survives the cut is the same |
| Labels.JobNameInjective | operator/internal/controller/resources.go:86-92 | for names of at most 40 characters the Job name determines deployment and build |
| Labels.JobNameMergesBuilds | operator/internal/controller/resources.go:86-92 | past 40 characters every build ID has another with the same Job name |
| Labels.JobNameIsLabel | operator/internal/controller/resources.go:84-92 | the Job name of a valid deployment name is a valid label exactly when that name does not have 56 or 62 characters |
| Releases.StoredIsNewestOfLog | operator/internal/controller/reconcile.go:546-573 | after any tracking passes the stored history is the newest part, at most 20 entries, of the unbounded log of SHA changes |
| Releases.NeighboursDiffer | operator/internal/controller/reconcile.go:553-560 | neighbouring entries carry different SHAs |
| History.HistoryOverRuns | operator/internal/controller/reconcile.go:537-588 | the same in every reachable state of every run of the operator |
| Runs.ReconcileSplits | operator/internal/controller/reconcile.go:244-356 | a reconcile is its gates followed by build and rollout, or it leaves Jobs, build fields and failure mark alone and applies no Deployment |
| Runs.RollOutRollsOut | operator/internal/controller/reconcile.go:330-356 | the rollout stage leaves the build alone, deploys the ID it is given or nothing new, and never lifts a pause at a marked generation |
| Runs.DueBuildCreates | operator/internal/controller/resources.go:470-508 | a due build without a Job gets one, for exactly the current build, and the status tracks it |
| Runs.SupersedeRemovesExactly | operator/internal/controller/resources.go:374-422 | superseding removes exactly the Job of another build that the status has in flight, unless it succeeded, and changes nothing else |
| Runs.FailedLookups | operator/internal/controller/resources.go:395-468 | a failed call about the stale Job leaves everything as it was, a failed read of the current Job only what superseding did |
| Runs.SeenFailure | operator/internal/controller/resources.go:528-573 | a failed Job is deleted the first time in a generation and final the second time |
| Runs.SeenSuccess | operator/internal/controller/resources.go:511-526 | a succeeded Job under the current name leads to a Deployment with the current build ID |
| InFlight.ReconcileKeepsTracked | operator/internal/controller/resources.go:379-589 | a reconcile keeps every unfinished Job the one named by the status, with build status pending or running, exactly when it does not write off a running Job |
| InFlight.OneBuildInFlight | operator/internal/controller/resources.go:379-589 | in every reachable state of a run without write-off at most one Job is unfinished and the status tracks it |
| InFlight.TrackedThroughoutExactly | operator/internal/controller/resources.go:528-573 | a run keeps that throughout if and only if it contains no write-off |
| InFlight.SinglePodsNeverWrittenOff | operator/internal/controller/resources.go:528-565 | a run in which no Job goes on to a second pod contains no write-off and never has two unfinished Jobs |
| InFlight.WriteOffIsReachable | operator/internal/controller/resources.go:552-565 | every deployment that can build reaches a write-off of a running Job |
| InFlight.TwoBuildsInFlight | operator/internal/controller/resources.go:384-390 | in some run of every deployment with two distinct builds, two Jobs are unfinished at once |
| Provenance.RunKeeps | operator/internal/controller/resources.go:446-526 | in every run, under the condition below, a deployed build ID and a build reported as succeeded name builds whose own Job succeeded |
| Provenance.BuiltExactly | operator/internal/controller/resources.go:510-526 | after any run, the artifacts that exist are exactly those of builds whose unfinished Job succeeded at some step |
| Provenance.MergedNamesDeployUnbuilt | operator/internal/controller/resources.go:461-526 | two builds with one Job name give a run that deploys a build that was never built |
| Provenance.DeploysOnlyBuiltExactly | operator/internal/controller/resources.go:1067-1073 | in all runs only built IDs are deployed, if and only if Job names tell builds apart or no Job can be created |
| Provenance.ShortNamesDistinguish | operator/internal/controller/resources.go:86-92 | names of at most 40 characters meet the condition |
| Provenance.LongNamesMerge | operator/internal/controller/resources.go:86-92 | names of more than 56 characters break it as soon as two builds differ |
| Retries.StepAdvancesMarks | operator/internal/controller/reconcile.go:575-576 | no step decreases the failed or last-reconciled generation or takes it past the current one |
| Retries.RunAdvancesMarks | operator/internal/controller/reconcile.go:575-576 | between any two points of a run the marks only grow and stay within the generation |
| Retries.FailureAbsorbs | operator/internal/controller/reconcile.go:305-307 | at a generation marked as failed, a step that keeps the generation keeps the failure, creates no Job and applies no Deployment |
| Retries.FailureIsFinal | operator/internal/controller/reconcile.go:208-219 | and so does every continuation of the run at that generation |
| Retries.JobsPerGeneration | operator/internal/controller/resources.go:470-573 | over any run each generation creates at most two Jobs plus one per Job of it lost before its outcome was recorded |
| Retries.SecondFailureIsFinal | operator/internal/controller/resources.go:552-573 | a failure seen at a marked generation ends in BuildFailed and nothing happens afterwards |
| Retries.TwoFailuresEndGeneration | operator/internal/controller/resources.go:529-573 | over any run, two reconciles that see a failed Job in one generation, whatever lies between, leave it BuildFailed, and it stays failed and idle at every later point of that generation |
| Retries.RetryRecreatesExactly | operator/internal/controller/resources.go:529-550 | a Job deleted for retry is re-created by the next unobstructed reconcile exactly when the phase was not a terminal failure |
| Retries.StrandedRetryNeverBuilds | operator/internal/controller/reconcile.go:305-307 | in a terminal phase it is never re-created at that generation |
| Pauses.StepKeepsPause | operator/internal/controller/resources.go:870-881 | a step at a marked generation keeps a paused Deployment paused unless the Deployment is deleted |
| Pauses.PauseLasts | operator/internal/controller/resources.go:861-882 | a remediation pause lasts as long as the generation |
| Pauses.RetryOutlivesPause | operator/internal/controller/resources.go:539-542 | a generation that retries its build never lifts an earlier pause |
| Pauses.NewBuildDeployedPaused | operator/internal/controller/resources.go:870-881 | from a paused Deployment whose next build fails once, the steps after which the retried build is deployed and still paused |
| Pauses.FailedRolloutPauses | operator/internal/controller/lifecycle.go:373-382 | a rollout that fails with pods still serving, while the generation's mark is free, marks the generation and leaves the Deployment paused exactly when the pause is accepted or an earlier one was left on |
| Pauses.RefusalsExactly | operator/internal/controller/resources.go:858-911 | what a refused apply has done by then: nothing, only the unpause, or everything, depending on the call that is refused |
| Pauses.RolloutUnpausesExactly | operator/internal/controller/resources.go:870-881 | a rollout that does not fail lifts the pause exactly when it could read the Deployment and the generation has moved past a recorded failure |
| Rollouts.PhaseMeaning | operator/internal/controller/lifecycle.go:198-351 | each phase if and only if its condition on health and time: Running healthy, Failed given up with no pod available, RolloutFailed given up with one serving, RollingOut more replicas than wanted with time left, Pending anything else with time left |
| Rollouts.UnfinishedRolloutHasTime | operator/internal/controller/lifecycle.go:210-231 | a rollout left in progress has its start recorded and has not timed out |
| Rollouts.MissingDeploymentPhase | operator/internal/controller/lifecycle.go:244-249 | a Deployment that is gone counts as Pending until the time is over, then as RolloutFailed |
| Rollouts.InfraFailureWritesNothing | operator/internal/controller/lifecycle.go:359-371 | an infrastructure failure leaves everything as it was, the rollout's clock included |
| Rollouts.RolloutClock | operator/internal/controller/lifecycle.go:210-220 | a rollout's clock keeps its first start while in progress, and none is left after success, suspension or a remediated failure |
| Rollouts.FailedIsScaledDownExactly | operator/internal/controller/reconcile.go:348-353 | a suspended deployment has no replicas; one assessed as Failed has none exactly when the generation's failure mark was still free; every other has one |
| Rollouts.FailingReplicaStays | operator/internal/controller/resources.go:1094-1099 | otherwise the failing replica stays for the rest of the generation |
| Rollouts.MissingSecretRun | operator/internal/controller/lifecycle.go:153-196 | while a Secret stays missing three reconciles only count, every later one ends in RolloutFailed, and nothing is built or deployed |
| Rollouts.MigrationIsQuiet | operator/internal/controller/reconcile.go:154-186 | the name migration is followed by a full reconcile exactly when the schema is out of date, keeps the build, leaves a failure mark behind, moves the name to the display name and changes nothing else in the spec |
| Tracking.ReconcileTracks | operator/internal/controller/reconcile.go:537-588 | a reconcile that deploys, waits for code or finds the generation failed records schema, generation and release if a full one was due; every other leaves the record alone |
| Tracking.SettledExactly | operator/internal/controller/reconcile.go:78-106 | afterwards no full reconcile is needed exactly when none was needed before or the reconcile is one of those |
| Tracking.EditUnsettles | operator/internal/controller/reconcile.go:83-106 | a new deployment and every edit need a full reconcile |
| Tracking.SettledUntilEdited | operator/internal/controller/reconcile.go:266-282 | over any run without edits a settled deployment needs no full reconcile and asks no gate |
| Tracking.FoundSecretRestoresRetries | operator/internal/controller/lifecycle.go:188-195 | a Secret that is found resets the counter, so later misses count from zero again |
| Tracking.SuspendedBuildsOnce | operator/internal/controller/resources.go:438-447 | a suspended deployment whose Job succeeded skips the build from then on, and after an edit exactly while it stays suspended with no higher counter, or has no code |
| Tracking.SpecKeptExactly | operator/internal/controller/reconcile.go:154-186 | a reconcile changes the spec exactly when there is a name to move and no display name in its place |
| Tracking.InvalidNameTearsDown | operator/internal/controller/reconcile.go:453-486 | a name that is no label leaves no Deployment and makes no Job |
| Tracking.NoticedOnce | operator/internal/controller/resources.go:575-589 | a running Job is noticed once, and its build then counts as running |
| Tracking.RecordedTag | operator/internal/controller/resources.go:144-160 | the recorded tag is the spec's without the legacy prefix, or the default |
| Slots.SlotPhases | operator/internal/controller/reconcile.go:110-112 | the phases that hold a deployment slot and a rollout slot |
| Slots.FirstPhaseExactly | operator/internal/controller/reconcile.go:359-395 | a first or full reconcile starts over as Pending what was pending, rolling out or running, and keeps every other phase |
| Slots.VerdictReadExactly | operator/internal/controller/lifecycle.go:121-136 | a full namespace stops exactly the gated reconciles; suspended, waiting and settled deployments are reconciled as if there were room |
| Slots.PhaseBeforeBuild | operator/internal/controller/reconcile.go:244-319 | the phase after a reconcile that ends before the build stage, for each way in which it can |
| Slots.PhaseWithoutRollout | operator/internal/controller/resources.go:446-589 | the phase after one that ends in the build stage: Building when a Job is created or first seen running, BuildFailed on a failure that is final, otherwise the phase it started from |
| Slots.PhaseWithRollout | operator/internal/controller/reconcile.go:330-356 | the phase after one that applies a Deployment, from the answers and the health it reads |
| Slots.RolloutSlotExactly | operator/internal/controller/lifecycle.go:117-136 | for every state and every step that asks no gate, a deployment without a rollout slot has one afterwards exactly when a condition on the state and the answers holds: a Job is created or first seen running, a build is deployed and still in progress with time left, a first phase is left standing, or an edit lifts a suspension in a rolling phase |
| Slots.DeploymentSlotExactly | operator/internal/controller/lifecycle.go:117-136 | likewise for a deployment slot: a Secret missing past its retries, a deployed build that is not taken down, or a first phase left standing |
| Scenarios.StrandedRetryIsReachable | operator/internal/controller/resources.go:529-565 | every deployment that can build has a run into BuildFailed with a failed Job and an edit that asks for a retry |
| Scenarios.WrittenOffBuildMaySucceed | operator/internal/controller/resources.go:552-573 | a run after which a build reported as failed has succeeded, at a generation that has failed for good |
| Scenarios.FailingReplicaIsReachable | operator/internal/controller/reconcile.go:348-353 | and a run after which it is Failed for good with its replica up |
| Scenarios.PausedBuildIsReachable | operator/internal/controller/resources.go:870-881 | and, with two builds, a run after which the second build is deployed and paused at a marked generation |
| Scenarios.RefusedApplyIsRetriedExactly | operator/internal/controller/reconcile.go:428-451 | after a refused apply the next unobstructed reconcile comes back to the rollout exactly when the failure mark is free |
| Scenarios.RefusedApplyIsFinal | operator/internal/controller/reconcile.go:305-307 | at a marked generation a refused apply is final whatever follows |
| Scenarios.FinalRefusalIsReachable | operator/internal/controller/reconcile.go:428-451 | a run from a fresh deployment in which one refused apply is final |
| Scenarios.DeletionLiftsPause | operator/internal/controller/resources.go:869-897 | a Deployment deleted by hand is made again by the next rollout and, unless that fails, without the pause |
| BuildIds.ContentTellsBuildsApart | operator/internal/controller/resources.go:365-373 | for SHAs without a bar, the hashed content is the same exactly when SHA and effective build counter are |
| BuildIds.ContentTellsDeploymentsApart | operator/internal/controller/resources.go:365-369 | contents of two deployments whose names have no bar differ |
| BuildIds.BuildIdTellsBuildsApart | operator/internal/controller/resources.go:364-372 | if the hashes of two different contents differ in the digits kept, two specs have the same build ID exactly when SHA and effective build counter are the same |
| BuildIds.EditRebuildsExactly | operator/internal/controller/resources.go:449-508 | over any run, after a succeeded build an edit makes a build due exactly when it changes the SHA or the counter, and a Job for the new request is created if none stands under its name |
| BuildIds.BarDefeatsContent | operator/internal/controller/resources.go:366-370 | with a bar in the SHA two different builds have the same content |
| Controller.Reconciler.constructor | operator/api/v1/llamadeployment_types.go:68-116 | a new resource has the empty status from which runs start |
| Controller.Reconciler.MigrateName | operator/internal/controller/reconcile.go:154-186 | the name migration and its generation bookkeeping |
| Controller.Reconciler.Initialize | operator/internal/controller/reconcile.go:359-426 | which phases are reset to Pending and which are kept |
| Controller.Reconciler.CheckSecret | operator/internal/controller/lifecycle.go:140-196 | the Secret gate with its three retries |
| Controller.Reconciler.TrackVersion | operator/internal/controller/reconcile.go:537-588 | version tracking equals one recorded pass of the release history |
| Controller.Reconciler.SupersedeStale | operator/internal/controller/resources.go:379-422 | an in-flight Job of another build is deleted, a succeeded one kept |
| Controller.Reconciler.CreateJob | operator/internal/controller/resources.go:470-508 | a Job is created and tracked, or the refusal leaves everything as it was |
| Controller.Reconciler.ObserveJob | operator/internal/controller/resources.go:510-589 | the four ways in which an existing Job is taken |
| Controller.Reconciler.Build | operator/internal/controller/resources.go:427-589 | the build stage in place, failed reads and deletions included, does what the build function says |
| Controller.Reconciler.ApplyDeployment | operator/internal/controller/resources.go:858-911 | unpause and apply, with every point at which they can be refused |
| Controller.Reconciler.Remediate | operator/internal/controller/lifecycle.go:373-396 | the failed generation is recorded and the pods are taken down by pause or by zero replicas |
| Controller.Reconciler.AssessHealth | operator/internal/controller/lifecycle.go:201-351 | phase from Deployment health, rollout timing and timeout; nothing is changed when the Deployment cannot be read |
| Controller.Reconciler.FinishRollout | operator/internal/controller/reconcile.go:343-356 | assessment, remediation and final phase, nothing written on infrastructure failures |
| Controller.Reconciler.BuildAndDeploy | operator/internal/controller/reconcile.go:321-356 | build, apply, track, assess, in that order |
| Controller.Reconciler.Run | operator/internal/controller/reconcile.go:244-356 | the whole reconcile in place equals the reconcile function, so what holds of runs holds of it |
| Capacity.CheckRolloutCapacity | operator/internal/controller/lifecycle.go:39-79 | the loop turns away exactly when a positive limit is reached by the other non-suspended rolling deployments |
| Capacity.CheckDeploymentCapacity | operator/internal/controller/lifecycle.go:83-115 | the loop turns away exactly when a positive limit is reached by the other active deployments |
| Capacity.CheckCapacityGates | operator/internal/controller/lifecycle.go:121-136 | the two gates together, and when they are skipped |
| Capacity.PassedGatesMeetLimits | operator/internal/controller/reconcile.go:275-291 | after a reconcile that passes the gates both limits hold, whatever the namespace was before |
| Capacity.RefusedGateChangesNothing | operator/internal/controller/reconcile.go:277-282 | a reconcile that is turned away changes nothing |
| Capacity.NewDeploymentsHoldNoSlot | operator/internal/controller/reconcile.go:110-112 | a namespace of new deployments is within every limit |
| Capacity.OwnSlotNeverBlocks | operator/internal/controller/lifecycle.go:97-99 | the gates look at the others only, so a deployment within the limits is not turned away for the slot it holds |
| Capacity.EventKeepsLimitsExactly | operator/internal/controller/lifecycle.go:117-136 | within the limits, an event leads out of them exactly when it takes up a slot ungated, by the conditions of Slots on the state before it, while all are taken |
| Capacity.RunKeepsLimitsExactly | operator/internal/controller/lifecycle.go:117-136 | a run of the namespace stays within both limits throughout if and only if it contains no such event |
| Capacity.RolloutSlipSources | operator/internal/controller/lifecycle.go:122-124 | an ungated step takes up a rollout slot exactly by the condition of Slots; it is then a partial reconcile, one of a waiting deployment, or a lifted suspension |
| Capacity.DeploymentSlipSources | operator/internal/controller/lifecycle.go:122-124 | an ungated step takes up a deployment slot exactly by the condition of Slots; it is then a partial reconcile or one of a suspended or waiting deployment |
| Capacity.PushesPassTheLimit | operator/internal/controller/lifecycle.go:122-124 | two waiting deployments that have received code both build at a limit of one |
| Capacity.TwoPushesFromFresh | operator/internal/controller/lifecycle.go:122-124 | any two new deployments without code have a run from within a limit of one to two builds at once |
| ReplicaSets.SelectNewest | operator/internal/controller/lifecycle.go:530-574 | for every list, the flag is set exactly when a serving owned ReplicaSet other than the chosen one exists; the choice took its place by a record revision or, without one, by its creation time, and nothing after it takes it; with proper revisions it is the first with the highest |
| ReplicaSets.OneChoice | operator/internal/controller/lifecycle.go:530-574 | that describes at most one ReplicaSet of any list |
| ReplicaSets.ScaleDownFailing | operator/internal/controller/lifecycle.go:576-603 | the chosen ReplicaSet is scaled to zero exactly when it is not the only one that serves and not at zero already; if anything served traffic something that serves is left untouched |
| Matching.SubclassesAcceptMore | packages/llama-index-workflows/src/workflows/_event_matching.py:39-60 | subclass-aware matching accepts every event type that exact matching accepts |
| StreamLevels.LevelIsClosed | packages/llama-index-workflows/src/workflows/_stream_levels.py:80-103 | a level holds its seeds and is closed under same-level successors |
| StreamLevels.LevelIsLeast | packages/llama-index-workflows/src/workflows/_stream_levels.py:80-103 | and is contained in every such set |
| StreamLevels.LevelIsIdempotent | packages/llama-index-workflows/src/workflows/_stream_levels.py:33-44 | the level of a level is itself |
| StreamLevels.LevelOfUnion | packages/llama-index-workflows/src/workflows/_stream_levels.py:33-44 | levels distribute over the union of seeds |
| StreamLevels.LevelMonotone | packages/llama-index-workflows/src/workflows/_stream_levels.py:60-103 | levels are monotone in seeds, guard and matching mode together |
| StreamLevels.CollapseMonotone | packages/llama-index-workflows/src/workflows/_stream_levels.py:51-78 | and so is what a fan-out step surfaces |
| StreamLevels.LargerGuardSmallerLevel | packages/llama-index-workflows/src/workflows/_stream_levels.py:40-41 | enlarging the guard never adds a type |
| StreamLevels.SubclassAwareLargerLevel | packages/llama-index-workflows/src/workflows/_event_matching.py:39-60 | switching steps to subclass-aware matching never removes a type |
| StreamLevels.LevelIgnoresOrder | packages/llama-index-workflows/src/workflows/_stream_levels.py:88-102 | a level is the same for every order in which the steps are declared |
| StreamLevels.CollapseIsCollectOutput | packages/llama-index-workflows/src/workflows/_stream_levels.py:62-78 | whatever surfaces is returned by a collect step that does not fan out |
| StreamLevels.LevelIsIsolated | packages/llama-index-workflows/src/workflows/_stream_levels.py:88-103 | every type of a level is a seed, the output of a 1:1 step accepting a type of the level, or the output of such a collect step |
| StreamLevels.FanOutMembersDoNotLeak | packages/llama-index-workflows/src/workflows/_stream_levels.py:54-58 | a type that only fan-out steps return is in a level exactly when it is a seed |
| Routing.StepPassesOnExactly | packages/llama-index-workflows/src/workflows/_event_matching.py:39-60 | in a workflow of one 1:1 step, its output is in the level of a type exactly when the type's class is listed or, for a subclass-aware step, descends from one that is |
| Routing.CollectBindsExactly | packages/llama-index-workflows/src/workflows/_stream_levels.py:62-78 | with one fan-out and one collect step, the collect output surfaces exactly when the emitted class is one the collect step takes |
| Routing.CollectedTypeArrivesExactly | packages/llama-index-workflows/src/workflows/_stream_levels.py:88-103 | and is in the level of a type exactly when that type also triggers the fan-out step |
| Routing.SubclassesAreCollectedExactly | packages/llama-index-workflows/src/workflows/_stream_levels.py:64-71 | a collect step over a class takes members of a subclass exactly when it is subclass-aware, and one over the subclass never takes the class |
| Traversal.Expand | packages/llama-index-workflows/src/workflows/_stream_levels.py:88-102 | the loop over the steps for one popped type |
| Traversal.Explore | packages/llama-index-workflows/src/workflows/_stream_levels.py:81-103 | the worklist terminates with a closed set that holds the seeds and lies in every closed set that does |
| Traversal.Walk | packages/llama-index-workflows/src/workflows/_stream_levels.py:80-103 | its result is exactly the level, however sets are listed; by LevelIgnoresOrder it does not depend on the step order |
| Traversal.CollapsedOutputs | packages/llama-index-workflows/src/workflows/_stream_levels.py:51-78 | the recursion terminates and returns exactly what the fan-out step surfaces |
| Traversal.GiveBackAll | packages/llama-index-workflows/src/workflows/_stream_levels.py:62-78 | the loop over the collect steps bound to a level |
| Traversal.LevelsByProducer | packages/llama-index-workflows/src/workflows/_stream_levels.py:108-116 | one level per fan-out step, guarded by its own name |
| Guards.IdealIsSolution | packages/llama-index-workflows/src/workflows/_stream_levels.py:5-10 | the documented equations for what fan-out steps surface have a least solution |
| Guards.IdealMeetsEquations | packages/llama-index-workflows/src/workflows/_stream_levels.py:5-10 | the least solution meets the equations as equations: each step surfaces exactly what the collect steps bound to its level give back |
| Guards.LevelIsSound | packages/llama-index-workflows/src/workflows/_stream_levels.py:80-103 | under any guard a computed level lies within the level of every solution |
| Guards.CollapseIsSound | packages/llama-index-workflows/src/workflows/_stream_levels.py:51-78 | and what surfaces lies within every solution |
| Guards.UnfedTraversalIsExact | packages/llama-index-workflows/src/workflows/_stream_levels.py:40-41 | if no fan-out step feeds itself, the traversal computes exactly the least solution, and every level reported for a producer is exactly its level by the equations |
| Guards.ReportIsExactExactly | packages/llama-index-workflows/src/workflows/_stream_levels.py:51-78 | the traversal reports the least solution if and only if its report satisfies the equations |
| Guards.GuardLosesType | packages/llama-index-workflows/src/workflows/_stream_levels.py:98-100 | in a self-feeding workflow a type of the least solution is missing, and one is missing from the level reported for the producer |
| Resources.ChainIndependent | packages/llama-index-workflows/src/workflows/resource.py:436-440 | a value found along one chain of requests is the value along every chain that leads to the resource |
| Resources.CircularExactly | packages/llama-index-workflows/src/workflows/resource.py:431-434 | the circular error is raised only above a cycle of the graph cut at cached names, no value is returned there, and without failing factories it is raised exactly there |
| Resources.OnChainIsCircular | packages/llama-index-workflows/src/workflows/resource.py:431-433 | a name on the chain is circular whatever is cached, with the whole chain in the error |
| Resources.CachedValuesAreTransparent | packages/llama-index-workflows/src/workflows/resource.py:437-438 | on top of values the graph itself would give, a request has a value exactly when evaluation from nothing has it, and it is the same |
| Manager.ResourceManager.Lookup | packages/llama-index-workflows/src/workflows/resource.py:436-440 | a hit in either cache is the cache-free value along the current chain |
| Manager.ResourceManager.GetInner | packages/llama-index-workflows/src/workflows/resource.py:426-452 | the result, value or error, is that of cache-free evaluation, and the chain is restored on success and on error |
| Manager.ResourceManager.ProducePushed | packages/llama-index-workflows/src/workflows/resource.py:442-452 | the name is on the chain while its value is produced and off it afterwards, on success and on error |
| Manager.ResourceManager.Produce | packages/llama-index-workflows/src/workflows/resource.py:107-127 | dependencies, factory call and storing |
| Manager.ResourceManager.ResolveAll | packages/llama-index-workflows/src/workflows/resource.py:113-118 | dependencies are resolved in order and the first error is the error |
| Manager.ResourceManager.ResolveStep | packages/llama-index-workflows/src/workflows/runtime/types/step_function.py:138-144 | all resources of one step in one scope: the values of cache-free evaluation, each factory called at most once, cached ones kept, and cached values kept honest |
| Manager.ResourceManager.Get | packages/llama-index-workflows/src/workflows/resource.py:405-452 | an outermost request equals cache-free evaluation, calls each factory at most once, lets each cached factory complete at most once ever, leaves depth zero, an empty chain and an empty scope cache, keeps the value of a cached resource, calls nothing for one that is kept already, and keeps cached values honest |
| RetryPolicy.StopIsMonotone | packages/llama-index-workflows/src/workflows/retry_policy.py:673-797 | for every stop tree, more attempts, elapsed time or sleep never turn a stop into a retry |
| RetryPolicy.StopsByAttemptExactly | packages/llama-index-workflows/src/workflows/retry_policy.py:673-797 | a tree stops by attempt n whatever the timing exactly when it does at time zero |
| RetryPolicy.WaitIsCapped | packages/llama-index-workflows/src/workflows/retry_policy.py:431-670 | every delay of a well-formed tree lies between zero and the tree's cap |
| Delays.FixedDelaysAddUp | packages/llama-index-workflows/src/workflows/retry_policy.py:444-445 | under a fixed wait the delays of a run add up to one wait per retry |
| Delays.FixedRunsExactly | packages/llama-index-workflows/src/workflows/retry_policy.py:824-838 | a fixed wait with an attempt limit has exactly the runs with fewer retries than the limit, each delayed by the wait, each error one to retry |
| Delays.ExponentialDelays | packages/llama-index-workflows/src/workflows/retry_policy.py:486-490 | the delays of a run are the terms of a geometric progression that starts with multiplier times base, kept between the ends |
| Delays.JitterExactly | packages/llama-index-workflows/src/workflows/retry_policy.py:568-571 | exactly the delays from the term to the term plus the jitter, cut at the maximum |
| Delays.FullJitterExactly | packages/llama-index-workflows/src/workflows/retry_policy.py:599-605 | exactly the delays from the minimum to the exponential delay |
| Delays.IncrementingDelays | packages/llama-index-workflows/src/workflows/retry_policy.py:516-518 | unlimited incrementing delays of a run go up by one increment per retry and never below zero |
| Delays.LimitCuts | packages/llama-index-workflows/src/workflows/retry_policy.py:516-518 | a limit cuts them |
| Delays.ChainGrants | packages/llama-index-workflows/src/workflows/retry_policy.py:649-651 | each retry of a run under a chain is granted by the strategy of its number, or the last one |
| Delays.SumOfBoth | packages/llama-index-workflows/src/workflows/retry_policy.py:669-670 | combining is summing, however it is nested |
| Delays.CombinedDelays | packages/llama-index-workflows/src/workflows/retry_policy.py:654-670 | two combined strategies answer exactly with the sums of their delays |
| Delays.CappedExactly | packages/llama-index-workflows/src/workflows/retry_policy.py:431-670 | a tree has a cap exactly when no part is an incrementing wait without a limit |
| Delays.CapIsReached | packages/llama-index-workflows/src/workflows/retry_policy.py:431-608 | the cap of a single growing, fixed or random strategy is reached by some retry |
| Delays.CombinedCapIsReached | packages/llama-index-workflows/src/workflows/retry_policy.py:669-670 | strategies that reach their caps together reach the cap of their combination |
| Delays.ChainCapIsOneOfThem | packages/llama-index-workflows/src/workflows/retry_policy.py:649-651 | the cap of a chain is that of one of its strategies |
| Delays.AnyStopGrants | packages/llama-index-workflows/src/workflows/retry_policy.py:733-754 | stopping at any of several conditions grants what each of them alone grants |
| Delays.AllStopGrants | packages/llama-index-workflows/src/workflows/retry_policy.py:757-778 | stopping at all of them grants what some of them alone grants, and nothing for none |
| Delays.TimeLimitedRunsExactly | packages/llama-index-workflows/src/workflows/retry_policy.py:692-730 | under a time limit exactly the runs whose failures, or whose sleeps, end before it |
| Delays.UnstoppedRunsExactly | packages/llama-index-workflows/src/workflows/retry_policy.py:781-838 | without a stop condition exactly the runs whose errors are to be retried |
| RetryPolicy.RetriesAreBounded | packages/llama-index-workflows/src/workflows/retry_policy.py:824-838 | a tree that stops by attempt n leaves fewer than n retries in every run |
| RetryPolicy.AttemptLimitBoundsRetries | packages/llama-index-workflows/src/workflows/retry_policy.py:673-689 | so does `stop_after_attempt(n)` under any nest of "any" |
| RetryPolicy.AttemptLimitBoundsDelay | packages/llama-index-workflows/src/workflows/retry_policy.py:824-838 | and the granted delays add up to at most n - 1 times the cap (TimesIsProduct ties the sum to the product) |
| RetryPolicy.SleepEndsBeforeLimit | packages/llama-index-workflows/src/workflows/retry_policy.py:711-730 | under `stop_before_delay` every granted sleep ends before the limit |
| RetryPolicy.BackoffNeverShrinks | packages/llama-index-workflows/src/workflows/retry_policy.py:486-490 | exponential backoff does not shrink from one retry to a later one |
| RetryPolicy.ChainIsInOrderExactly | packages/llama-index-workflows/src/workflows/retry_policy.py:649-651 | a chain uses the strategy meant for a retry exactly when it is exhausted by then |
| RetryPolicy.FirstOfChainIsUnused | packages/llama-index-workflows/src/workflows/retry_policy.py:631-651 | the first of several strategies has no influence on any run |
| RetryPolicy.CauseMatches | packages/llama-index-workflows/src/workflows/retry_policy.py:344-351 | the walk answers whether some explicit cause is of the kinds, the error itself not included |
| Annotations.FlattenReturnAnnotation | packages/llama-index-workflows/src/workflows/utils.py:377-406 | flattening gives the first occurrences of the non-None leaves, in order |
| Annotations.FlattenBareMembers | packages/llama-index-workflows/src/workflows/utils.py:500-513 | bare members are the first occurrences of the leaves outside lists |
| Annotations.SameElements | packages/llama-index-workflows/src/workflows/utils.py:383-384 | no type is lost or repeated |
| Annotations.FirstComesFirst | packages/llama-index-workflows/src/workflows/utils.py:383-384 | order is preserved: a type that first occurs before another comes before it |
| Annotations.LeavesInOrder | packages/llama-index-workflows/src/workflows/utils.py:391-398 | union members are flattened in their order |
| Annotations.ProducedExactly | packages/llama-index-workflows/src/workflows/utils.py:377-406 | a type is produced exactly when some path through unions and lists leads to it, and bare exactly when one through unions alone does |
| Annotations.FanOutExactly | packages/llama-index-workflows/src/workflows/utils.py:469-480 | an annotation fans out exactly when a path of union member positions leads to a list |
| Annotations.WithoutListsIsOrdinary | packages/llama-index-workflows/src/workflows/utils.py:454-467 | so one without lists does not |
| Annotations.BareOrUnderList | packages/llama-index-workflows/src/workflows/utils.py:469-513 | a type is produced exactly when it is bare or under a list |
| Annotations.OrdinaryIsBare | packages/llama-index-workflows/src/workflows/utils.py:469-480 | an annotation that does not fan out has bare members equal to its flattening |
| Annotations.BareMembersAmongFlattened | packages/llama-index-workflows/src/workflows/utils.py:483-513 | bare members are among the flattened types, the others lie under a list, and types under a list mean fan-out |
| DotPaths.JoinOfSplit | src/dev_cli/changesets.py:219-219 | splitting a dotted path loses nothing |
| DotPaths.SplitOfJoin | src/dev_cli/changesets.py:219-219 | splitting gives back every list of keys without dots that was joined |
| DotPaths.KeysHaveNoDot | src/dev_cli/changesets.py:219-219 | no key has a dot |
| DotPaths.PutSucceedsExactly | src/dev_cli/changesets.py:220-226 | an update succeeds exactly when everything above its path is a mapping or absent |
| DotPaths.PutFrames | src/dev_cli/changesets.py:218-229 | a path unrelated to the updated one reads what it read before |
| DotPaths.PutAllSucceeds | src/dev_cli/changesets.py:218-229 | prefix-free paths through mappings never raise |
| DotPaths.PutAllReadsBack | src/dev_cli/changesets.py:225-228 | afterwards every path reads back as its value |
| DotPaths.PutAllFrames | src/dev_cli/changesets.py:218-229 | every other leaf is unchanged |
| DotPaths.ChangesExactly | src/dev_cli/changesets.py:212-230 | the result is true exactly when some path differed beforehand |
| DotPaths.SecondApplicationIsIdle | src/dev_cli/changesets.py:212-230 | a second application reports no change and makes none |
| DotPaths.OrderDoesNotMatter | src/dev_cli/changesets.py:218-218 | any order of prefix-free updates gives the same document |
| Documents.Dict.Put | src/dev_cli/changesets.py:219-229 | one update in place, with its success, its result and whether it assigned |
| Documents.ApplyDotPathUpdates | src/dev_cli/changesets.py:212-230 | the loop over all updates in place equals the function on trees |

## Left out

- Stale informer caches, failed status writes and two reconciles of one resource at once: a reconcile is one atomic step.
- Pods of a deleted Job that outlive it: the model speaks of Job objects.
- Deletion with its finalizer, auth tokens, events, metrics, pod specs, templates, nginx configuration, requeue delays: effects on other objects only.
- Classification of pod failures: an arbitrary input of the reconcile.
- Watches and requeueing: a run may reconcile at any time or never, so nothing is said about progress.
- Controller.Reconciler.Remediate: the ReplicaSet that is scaled down beside the pause is modelled in ReplicaSets, on its own list and not in this state.
- Controller.Reconciler.AssessHealth: the Deployment is read once; a second read that fails after a timeout, which would report RolloutFailed where no pod is available, is not modelled.
- Guards.ReportIsExactExactly: its condition is on the traversal's own report; the condition that can be told from the workflow beforehand, `Ranked`, is sufficient only.
- Guards.UnfedTraversalIsExact: absence of self-feeding suffices for an exact traversal but is not necessary; the exact condition is the one of Guards.ReportIsExactExactly.
- Manager.ResourceManager.Get: one caller at a time; the chain is shared between concurrent tasks in the source.
- Manager.ResourceManager.Set: a value set by hand is taken as given; only values the graph itself would give are called honest.
- Documents.Dict.Put: walks down by recursion where the source loops; the text of a mapping is a parameter.
- RetryPolicy.WaitIsCapped: random draws are any value of their interval; floating-point rounding and seeds are not modelled.
- Retry predicates on exceptions other than the cause walk, regular expressions: uninterpreted functions of the error.
- Config-backed resources, JSON files, two factories with one qualified name.
- Workflow control loop, collect-stream runtime, server, stores, app server, control plane, AgentCore: not modelled.
- Versioning, change detection and publishing in `src/dev_cli`: easy members or behaviour of libraries.
