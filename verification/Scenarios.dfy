/** Runs from a fresh deployment into the situations in which a generation does less than it is meant to. */
module Scenarios {
  import opened Labels
  import opened Operator
  import opened Runs
  import opened InFlight
  import opened Retries
  import opened Rollouts
  import opened Pauses
  import opened Slots

  // ----- a retry that is never made -----

  /** A build fails for good, and an edit that keeps the spec asks for another attempt. */
  lemma StrandedRetryIsReachable(cfg: Config, spec: Spec, i: Inputs) returns (steps: seq<Step>)
    requires ValidConfig(cfg) && CanCreateJobs(cfg) && Buildable(spec)
    requires !i.capacityFull && i.jobAnswer == CreateAccepted
    ensures var s := After(cfg, Fresh(spec), steps);
            && SeesFailure(cfg, s, i) && MarksInRange(s) && s.spec == spec
            && s.status.phase == BuildFailed && s.status.failedRolloutGeneration < s.generation
            && CurrentJobName(cfg, s) in s.jobs && s.jobs[CurrentJobName(cfg, s)].state == JobFailed
  {
    var first := WriteOffIsReachable(cfg, spec, i);
    var s := After(cfg, Fresh(spec), first);
    var look, fail, edit := Reconciles(i), JobMoves(CurrentJobName(cfg, s), JobFailed), EditSpec(spec);
    SeenFailure(cfg, s, i);
    AfterThree(cfg, s, look, fail, edit);
    AfterConcat(cfg, Fresh(spec), first, [look, fail, edit]);
    steps := first + [look, fail, edit];
    RunAdvancesMarks(cfg, spec, steps, 0);
  }

  lemma SucceedsLater(s: State, name: string)
    requires name in s.jobs && s.jobs[name].Unfinished()
    ensures var t := MoveJob(s, name, JobSucceeded);
            t == s.(jobs := t.jobs, built := s.built + {s.jobs[name].buildId})
  {
  }

  /** A build that was written off can still succeed: its artifact then exists and the generation has failed. */
  lemma WrittenOffBuildMaySucceed(cfg: Config, spec: Spec, i: Inputs) returns (steps: seq<Step>)
    requires ValidConfig(cfg) && CanCreateJobs(cfg) && Buildable(spec)
    requires !i.capacityFull && i.jobAnswer == CreateAccepted
    ensures var s := After(cfg, Fresh(spec), steps);
            AlreadyFailed(s) && s.status.phase == BuildFailed && ComputeBuildId(cfg, spec) in s.built && s.generation == 1
  {
    var first := WriteOffIsReachable(cfg, spec, i);
    var s := After(cfg, Fresh(spec), first);
    var look, succeed := Reconciles(i), JobMoves(CurrentJobName(cfg, s), JobSucceeded);
    SeenFailure(cfg, s, i);
    var t := Reconcile(cfg, s, i);
    SucceedsLater(t, CurrentJobName(cfg, s));
    AfterAppend(cfg, Fresh(spec), first, look);
    AfterAppend(cfg, Fresh(spec), first + [look], succeed);
    steps := first + [look] + [succeed];
  }

  // ----- builds that succeed -----

  /** A Job is created and succeeds, and the operator is about to look. */
  lemma SucceedingRound(cfg: Config, s: State, i: Inputs) returns (steps: seq<Step>)
    requires ValidConfig(cfg) && CanCreateJobs(cfg) && NoJobYet(cfg, s)
    requires !i.capacityFull && i.jobAnswer == CreateAccepted
    ensures var t := After(cfg, s, steps);
            && BuildReady(cfg, t, i) && t.spec == s.spec && t.generation == s.generation
            && t.jobs.Keys == {CurrentJobName(cfg, t)}
            && t.workload == s.workload && t.status.failedRolloutGeneration == s.status.failedRolloutGeneration
  {
    CurrentBuildId(cfg, s.spec);
    JobNameIsLabel(cfg.name, ComputeBuildId(cfg, s.spec));
    steps := BuildSucceeds(cfg, s, i);
  }

  /** The Deployment reports that it makes no progress: with no pod available, or with one still serving. */
  const NONE_SERVING := QUIET.(health := Health(0, 0, 0, Absent, IsFalse))
  const ONE_SERVING := QUIET.(health := Health(1, 1, 2, Absent, IsFalse))

  /** The first Job fails and is retried, and the second succeeds. */
  lemma RetriedBuildSucceeds(cfg: Config, spec: Spec, i: Inputs) returns (steps: seq<Step>)
    requires ValidConfig(cfg) && CanCreateJobs(cfg) && Buildable(spec)
    requires !i.capacityFull && i.jobAnswer == CreateAccepted
    ensures var s := After(cfg, Fresh(spec), steps);
            BuildReady(cfg, s, i) && s.spec == spec && MarksInRange(s) && s.status.failedRolloutGeneration == s.generation
  {
    var round1 := FailingRound(cfg, Fresh(spec), i);
    var a := After(cfg, Fresh(spec), round1);
    var retry := RetryRound(cfg, a, i);
    var b := After(cfg, a, retry);
    var round2 := SucceedingRound(cfg, b, i);
    AfterConcat(cfg, Fresh(spec), round1, retry);
    AfterConcat(cfg, Fresh(spec), round1 + retry, round2);
    steps := round1 + retry + round2;
    RunAdvancesMarks(cfg, spec, steps, 0);
  }

  // ----- a failing replica that is kept -----

  lemma MarkedRolloutKeepsReplica(cfg: Config, s: State)
    requires BuildReady(cfg, s, NONE_SERVING) && Buildable(s.spec)
    requires s.status.failedRolloutGeneration == s.generation
    ensures var t := Reconcile(cfg, s, NONE_SERVING);
            && AlreadyFailed(t) && t.status.phase == Failed && t.spec == s.spec
            && t.workload.Some? && t.workload.value.replicas == 1
  {
    var t, buildId := ReadyRollsOut(cfg, s, NONE_SERVING);
    var full := NeedsFullReconciliation(s);
    PhaseWithRollout(cfg, s, NONE_SERVING);
    FailedIsScaledDownExactly(cfg, t, buildId, full, NONE_SERVING);
    RollOutRollsOut(cfg, t, buildId, full, NONE_SERVING);
  }

  /** No pod of the retried build comes up. */
  lemma FailingReplicaIsReachable(cfg: Config, spec: Spec) returns (steps: seq<Step>)
    requires ValidConfig(cfg) && CanCreateJobs(cfg) && Buildable(spec)
    ensures var s := After(cfg, Fresh(spec), steps);
            && AlreadyFailed(s) && s.status.phase == Failed && !s.spec.suspended
            && s.workload.Some? && s.workload.value.replicas == 1
  {
    var before := RetriedBuildSucceeds(cfg, spec, NONE_SERVING);
    MarkedRolloutKeepsReplica(cfg, After(cfg, Fresh(spec), before));
    AfterAppend(cfg, Fresh(spec), before, Reconciles(NONE_SERVING));
    steps := before + [Reconciles(NONE_SERVING)];
  }

  // ----- a new build that is deployed paused -----

  lemma FreeRolloutPauses(cfg: Config, s: State)
    requires BuildReady(cfg, s, ONE_SERVING) && Buildable(s.spec)
    requires s.status.failedRolloutGeneration != s.generation
    ensures var t := Reconcile(cfg, s, ONE_SERVING);
            && StuckPaused(t) && t.generation == s.generation && t.jobs.Keys <= s.jobs.Keys
            && t.status.buildId == ComputeBuildId(cfg, s.spec)
  {
    var t, buildId := ReadyRollsOut(cfg, s, ONE_SERVING);
    var full := NeedsFullReconciliation(s);
    PhaseWithRollout(cfg, s, ONE_SERVING);
    FailedRolloutPauses(cfg, t, buildId, full, ONE_SERVING);
    RollOutRollsOut(cfg, t, buildId, full, ONE_SERVING);
  }

  lemma ExpiredThenEdited(cfg: Config, s: State, name: string, edited: Spec)
    requires StuckPaused(s) && s.jobs.Keys <= {name} && Buildable(edited)
    requires s.status.buildId != ComputeBuildId(cfg, edited)
    ensures var t := Next(cfg, Next(cfg, s, JobVanishes(name)), EditSpec(edited));
            && NoJobYet(cfg, t) && t.spec == edited && t.generation == s.generation + 1
            && t.status.failedRolloutGeneration == s.generation && t.workload == s.workload
  {
    assert Next(cfg, s, JobVanishes(name)).jobs == map[];
  }

  /** The first build is rolled out and fails; its Job expires; an edit asks for a second build. */
  lemma PausedThenEdited(cfg: Config, spec: Spec, edited: Spec) returns (steps: seq<Step>)
    requires ValidConfig(cfg) && CanCreateJobs(cfg) && Buildable(spec) && Buildable(edited)
    requires ComputeBuildId(cfg, spec) != ComputeBuildId(cfg, edited)
    ensures var s := After(cfg, Fresh(spec), steps);
            && NoJobYet(cfg, s) && s.spec == edited && s.generation == 2 && s.status.failedRolloutGeneration == 1
            && s.workload.Some? && s.workload.value.paused
  {
    var first := SucceedingRound(cfg, Fresh(spec), ONE_SERVING);
    var s := After(cfg, Fresh(spec), first);
    var look, expire, edit := Reconciles(ONE_SERVING), JobVanishes(CurrentJobName(cfg, s)), EditSpec(edited);
    FreeRolloutPauses(cfg, s);
    ExpiredThenEdited(cfg, Reconcile(cfg, s, ONE_SERVING), CurrentJobName(cfg, s), edited);
    AfterThree(cfg, s, look, expire, edit);
    AfterConcat(cfg, Fresh(spec), first, [look, expire, edit]);
    steps := first + [look, expire, edit];
  }

  /** Its first pod fails, the retry succeeds, and the second build's Deployment is still paused. */
  lemma PausedBuildIsReachable(cfg: Config, spec: Spec, edited: Spec) returns (steps: seq<Step>)
    requires ValidConfig(cfg) && CanCreateJobs(cfg) && Buildable(spec) && Buildable(edited)
    requires ComputeBuildId(cfg, spec) != ComputeBuildId(cfg, edited)
    ensures var s := After(cfg, Fresh(spec), steps);
            StuckPaused(s) && s.workload.value.buildId == ComputeBuildId(cfg, edited) && s.generation == 2
  {
    var first := PausedThenEdited(cfg, spec, edited);
    var a := After(cfg, Fresh(spec), first);
    var fail := FailingRound(cfg, a, QUIET);
    var b := After(cfg, a, fail);
    AfterConcat(cfg, Fresh(spec), first, fail);
    RunAdvancesMarks(cfg, spec, first + fail, 0);
    var rest := NewBuildDeployedPaused(cfg, b);
    AfterConcat(cfg, Fresh(spec), first + fail, rest);
    steps := first + fail + rest;
  }

  // ----- a refused apply -----

  lemma Unobstructed(cfg: Config, s: State, i: Inputs)
    requires IsValidLabel(cfg.name) && s.spec.repoUrl != "" && !NeedsMigration(s.spec)
    requires !i.capacityFull && i.secret == SecretFound
    ensures ReachesBuild(cfg, s, i) <==> !AlreadyFailed(s)
  {
  }

  /**
   * After a refused apply, an unobstructed reconcile comes back to the rollout exactly when the generation's
   * failure mark is free. In a generation that has retried its build the refusal is final.
   */
  lemma RefusedApplyIsRetriedExactly(cfg: Config, s: State, i: Inputs, next: Inputs)
    requires BuildReady(cfg, s, i) && !Accepted(i.apply)
    requires !next.capacityFull && next.secret == SecretFound
    ensures Reconcile(cfg, s, i).status.phase == Failed
    ensures BuildReady(cfg, Reconcile(cfg, s, i), next) <==> s.status.failedRolloutGeneration != s.generation
  {
    PhaseWithRollout(cfg, s, i);
    var t, buildId := ReadyRollsOut(cfg, s, i);
    RollOutRollsOut(cfg, t, buildId, NeedsFullReconciliation(s), i);
    RefusedApplyKeepsMark(cfg, t, buildId, NeedsFullReconciliation(s), i);
    Unobstructed(cfg, Reconcile(cfg, s, i), next);
  }

  lemma RefusedApplyKeepsMark(cfg: Config, s: State, buildId: string, full: bool, i: Inputs)
    requires !Accepted(i.apply)
    ensures RollOut(cfg, s, buildId, full, i).status == s.status.(phase := Failed)
  {
  }

  lemma RefusedApplyIsFinal(cfg: Config, s: State, i: Inputs, later: seq<Step>)
    requires BuildReady(cfg, s, i) && !Accepted(i.apply) && MarksInRange(s)
    requires s.status.failedRolloutGeneration == s.generation
    requires After(cfg, Reconcile(cfg, s, i), later).generation == s.generation
    ensures AlreadyFailed(After(cfg, Reconcile(cfg, s, i), later))
  {
    PhaseWithRollout(cfg, s, i);
    var t, buildId := ReadyRollsOut(cfg, s, i);
    RollOutRollsOut(cfg, t, buildId, NeedsFullReconciliation(s), i);
    StepAdvancesMarks(cfg, s, Reconciles(i));
    FailureIsFinal(cfg, Reconcile(cfg, s, i), later);
  }

  const REFUSED := QUIET.(apply := RefusedBeforeUnpause)

  /** The apply of the retried build is refused, once. */
  lemma FinalRefusalIsReachable(cfg: Config, spec: Spec) returns (steps: seq<Step>)
    requires ValidConfig(cfg) && CanCreateJobs(cfg) && Buildable(spec)
    ensures var s := After(cfg, Fresh(spec), steps);
            AlreadyFailed(s) && s.status.phase == Failed && s.spec == spec
  {
    var before := RetriedBuildSucceeds(cfg, spec, REFUSED);
    var s := After(cfg, Fresh(spec), before);
    var t, buildId := ReadyRollsOut(cfg, s, REFUSED);
    PhaseWithRollout(cfg, s, REFUSED);
    RollOutRollsOut(cfg, t, buildId, NeedsFullReconciliation(s), REFUSED);
    RefusedApplyIsFinal(cfg, s, REFUSED, []);
    AfterAppend(cfg, Fresh(spec), before, Reconciles(REFUSED));
    steps := before + [Reconciles(REFUSED)];
  }

  // ----- a Deployment deleted by hand -----

  /** It is made again by the next rollout, and without the pause: a rollout that then does not fail runs. */
  lemma DeletionLiftsPause(cfg: Config, s: State, i: Inputs)
    requires BuildReady(cfg, Next(cfg, s, WorkloadDeleted), i) && i.apply == Applied
    ensures var t := Next(cfg, s, WorkloadDeleted);
            var u := Reconcile(cfg, t, i);
            && t.workload.None? && t.status == s.status && t.jobs == s.jobs
            && u.workload.Some? && (!IsFailedPhase(u.status.phase) ==> !u.workload.value.paused)
  {
    var t := Next(cfg, s, WorkloadDeleted);
    var r, buildId := ReadyRollsOut(cfg, t, i);
    RollOutRollsOut(cfg, r, buildId, NeedsFullReconciliation(t), i);
    if !IsFailedPhase(Reconcile(cfg, t, i).status.phase) {
      FreshApplyIsUnpaused(cfg, r, buildId, NeedsFullReconciliation(t), i);
    }
  }

  lemma FreshApplyIsUnpaused(cfg: Config, s: State, buildId: string, full: bool, i: Inputs)
    requires s.workload.None? && i.apply == Applied
    requires !IsFailedPhase(RollOut(cfg, s, buildId, full, i).status.phase)
    ensures var t := RollOut(cfg, s, buildId, full, i); t.workload.Some? && !t.workload.value.paused
  {
    var applied := TrackIf(full, cfg, ReconcileDeployment(s, buildId, i.apply).state, i.now);
    AssessmentKeepsPauseFlag(cfg, applied, buildId, i);
  }
}
