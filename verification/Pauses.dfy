/** The pause that remediation puts on the runtime Deployment, and when it is lifted. */
module Pauses {
  import opened Options
  import opened Labels
  import opened Operator
  import opened Runs
  import opened InFlight
  import opened Retries

  lemma BuildKeepsPause(cfg: Config, s: State, answer: JobAnswer)
    requires StuckPaused(s)
    ensures StuckPaused(ReconcileBuild(cfg, s, answer).state)
  {
  }

  lemma StepKeepsPause(cfg: Config, s: State, step: Step)
    requires StuckPaused(s) && Next(cfg, s, step).generation == s.generation
    ensures StuckPaused(Next(cfg, s, step)) || Next(cfg, s, step).workload.None?
  {
    if step.Reconciles? {
      var i := step.inputs;
      ReconcileSplits(cfg, s, i);
      if ReachesBuild(cfg, s, i) {
        GatesKeepBuild(s, i);
        BuildKeepsPause(cfg, AtBuild(s, i), i.jobAnswer);
        var build := ReconcileBuild(cfg, AtBuild(s, i), i.jobAnswer);
        if build.Ready? {
          RollOutRollsOut(cfg, build.state, build.buildId, NeedsFullReconciliation(s), i);
        }
      }
    }
  }

  /** While the Deployment is not deleted, a pause at a marked generation lasts as long as the generation. */
  lemma {:induction false} PauseLasts(cfg: Config, s: State, steps: seq<Step>)
    requires StuckPaused(s) && MarksInRange(s) && After(cfg, s, steps).generation == s.generation
    requires forall k :: 0 <= k <= |steps| ==> After(cfg, s, steps[..k]).workload.Some?
    ensures StuckPaused(After(cfg, s, steps))
  {
    if steps != [] {
      var before := steps[..|steps| - 1];
      assert forall k :: 0 <= k <= |before| ==> before[..k] == steps[..k];
      GenerationGrows(cfg, s, before);
      StepAdvancesMarks(cfg, After(cfg, s, before), steps[|steps| - 1]);
      PauseLasts(cfg, s, before);
      StepKeepsPause(cfg, After(cfg, s, before), steps[|steps| - 1]);
      assert steps[..|steps|] == steps;
    }
  }

  /**
   * The failure mark doubles as the build-retry token: a paused Deployment whose next generation retries its
   * build stays paused through everything that generation does, a successful rollout included.
   */
  lemma RetryOutlivesPause(cfg: Config, s: State, i: Inputs, later: seq<Step>)
    requires SeesFailure(cfg, s, i) && MarksInRange(s)
    requires s.workload.Some? && s.workload.value.paused
    requires var t := Reconcile(cfg, s, i);
             && After(cfg, t, later).generation == s.generation
             && forall k :: 0 <= k <= |later| ==> After(cfg, t, later[..k]).workload.Some?
    ensures StuckPaused(After(cfg, Reconcile(cfg, s, i), later))
  {
    SeenFailure(cfg, s, i);
    StepAdvancesMarks(cfg, s, Reconciles(i));
    PauseLasts(cfg, Reconcile(cfg, s, i), later);
  }

  lemma AssessmentKeepsPauseFlag(cfg: Config, s: State, buildId: string, i: Inputs)
    requires s.workload.Some? && !IsFailedPhase(AssessAndFinalize(cfg, s, buildId, i).status.phase)
    ensures AssessAndFinalize(cfg, s, buildId, i).workload == s.workload
  {
  }

  /** A rollout that does not fail and has read its Deployment lifts the pause exactly when the generation has
      moved past the mark. */
  lemma RolloutUnpausesExactly(cfg: Config, s: State, buildId: string, full: bool, i: Inputs)
    requires s.workload.Some? && s.workload.value.paused && (i.apply == Applied || i.apply == AppliedUnread)
    requires !IsFailedPhase(RollOut(cfg, s, buildId, full, i).status.phase)
    ensures var t := RollOut(cfg, s, buildId, full, i);
            && t.workload.Some?
            && (!t.workload.value.paused <==> i.apply == Applied && 0 < s.status.failedRolloutGeneration < s.generation)
  {
    var applied := ReconcileDeployment(s, buildId, i.apply).state;
    AssessmentKeepsPauseFlag(cfg, TrackIf(full, cfg, applied, i.now), buildId, i);
  }

  /** Whether a Deployment is left paused by an apply that reads it first. */
  predicate PauseKept(s: State) { s.workload.Some? && s.workload.value.paused && !Unpauses(s) }

  lemma AssessmentPauses(cfg: Config, s: State, buildId: string, i: Inputs)
    requires s.workload.Some? && !s.spec.suspended && i.deploymentRead && i.podFailure != InfraFailure
    requires s.status.failedRolloutGeneration != s.generation
    requires AssessAndFinalize(cfg, s, buildId, i).status.phase == RolloutFailed
    ensures var t := AssessAndFinalize(cfg, s, buildId, i);
            && t.status.failedRolloutGeneration == s.generation && t.generation == s.generation
            && t.workload == Some(s.workload.value.(paused := i.pauseAccepted || s.workload.value.paused))
  {
  }

  /**
   * A rollout that fails while the mark is free, with pods still serving, marks the generation. Its Deployment
   * is paused afterwards exactly when the pause is accepted or an earlier one was left on.
   */
  lemma FailedRolloutPauses(cfg: Config, s: State, buildId: string, full: bool, i: Inputs)
    requires i.apply == Applied && i.deploymentRead && i.podFailure != InfraFailure
    requires !s.spec.suspended && s.status.failedRolloutGeneration != s.generation
    requires RollOut(cfg, s, buildId, full, i).status.phase == RolloutFailed
    ensures var t := RollOut(cfg, s, buildId, full, i);
            && t.workload.Some? && t.generation == s.generation && t.status.failedRolloutGeneration == s.generation
            && (t.workload.value.paused <==> i.pauseAccepted || PauseKept(s))
  {
    var applied := ReconcileDeployment(s, buildId, i.apply).state;
    AssessmentPauses(cfg, TrackIf(full, cfg, applied, i.now), buildId, i);
  }

  /**
   * What a refused apply has done by then: nothing before the unpause, only the unpause before the apply
   * itself, and everything if a later object is refused. The status tells only that it failed.
   */
  lemma RefusalsExactly(cfg: Config, s: State, buildId: string, full: bool, i: Inputs)
    ensures var t := RollOut(cfg, s, buildId, full, i);
            && (i.apply == RefusedBeforeUnpause ==> t == SetPhase(s, Failed))
            && (i.apply == RefusedAfterUnpause ==>
                  && t == SetPhase(s.(workload := t.workload), Failed)
                  && (s.workload.None? ==> t.workload.None?)
                  && (s.workload.Some? ==> t.workload == Some(s.workload.value.(paused := PauseKept(s)))))
            && (i.apply == RefusedAfterApply ==>
                  && t == SetPhase(s.(workload := t.workload), Failed)
                  && t.workload == Some(Workload(buildId, Replicas(s), PauseKept(s))))
  {
  }

  /** The input that shows it: the retried build succeeds and is deployed, and the Deployment is still paused. */
  lemma NewBuildDeployedPaused(cfg: Config, s: State) returns (steps: seq<Step>)
    requires ValidConfig(cfg) && CanCreateJobs(cfg) && Buildable(s.spec) && MarksInRange(s)
    requires FirstPodFailed(cfg, s, QUIET) && s.status.failedRolloutGeneration < s.generation
    requires s.workload.Some? && s.workload.value.paused
    ensures var t := After(cfg, s, steps);
            StuckPaused(t) && t.workload.value.buildId == ComputeBuildId(cfg, s.spec) && t.generation == s.generation
  {
    CurrentBuildId(cfg, s.spec);
    JobNameIsLabel(cfg.name, ComputeBuildId(cfg, s.spec));
    SeenFailure(cfg, s, QUIET);
    var retry := RetryRound(cfg, s, QUIET);
    var a := After(cfg, s, retry);
    var build := BuildSucceeds(cfg, a, QUIET);
    var b := After(cfg, a, build);
    assert StuckPaused(b) && DueForBuild(cfg, b, QUIET);
    SeenSuccess(cfg, b, QUIET);
    StepKeepsPause(cfg, b, Reconciles(QUIET));
    AfterConcat(cfg, s, retry, build);
    AfterAppend(cfg, s, retry + build, Reconciles(QUIET));
    steps := retry + build + [Reconciles(QUIET)];
  }
}
