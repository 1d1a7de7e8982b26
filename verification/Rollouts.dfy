/** What the phase, the replicas and the Secret counter mean once a reconcile is over. */
module Rollouts {
  import opened Options
  import opened Operator
  import opened Runs
  import opened Retries

  // ----- phases -----

  /** The Deployment reports that it no longer makes progress, or the rollout has used up its time. */
  predicate GivenUp(cfg: Config, s: State, i: Inputs) {
    var started := if s.status.rolloutStartedAt.Some? then s.status.rolloutStartedAt.value else i.now;
    i.health.progressing == IsFalse || i.now - started >= cfg.rolloutTimeout
  }

  /** The phase that the assessment arrives at, before anything is done about it. */
  function Assessed(cfg: Config, s: State, i: Inputs): Phase {
    var determined := DetermineDeploymentPhase(s, i.health);
    CheckRolloutTimeout(cfg, TrackRolloutStart(s, determined, i.now), i.health, determined, i.now)
  }

  /** All wanted replicas, and no others, are up and the Deployment says so. */
  predicate Healthy(h: Health, desired: nat) {
    h.availableReplicas > 0 && h.available == IsTrue && h.progressing == IsTrue && h.readyReplicas == h.replicas == desired
  }

  /**
   * A suspended deployment is Suspended. Otherwise, with a Deployment present: Running means healthy, Failed
   * given up with no pod available, RolloutFailed given up with one still serving, RollingOut in progress with
   * time left and more replicas than wanted, and Pending anything else in progress with time left.
   */
  lemma PhaseMeaning(cfg: Config, s: State, i: Inputs)
    requires s.workload.Some?
    ensures var phase, h, desired := Assessed(cfg, s, i), i.health, s.workload.value.replicas;
            var over := GivenUp(cfg, s, i) && !Healthy(h, desired);
            var surplus := h.availableReplicas > 0 && h.progressing == IsTrue && h.replicas > desired;
            && (phase == Suspended <==> s.spec.suspended)
            && (phase == Running <==> !s.spec.suspended && Healthy(h, desired))
            && (phase == Failed <==> !s.spec.suspended && over && h.availableReplicas == 0)
            && (phase == RolloutFailed <==> !s.spec.suspended && over && h.availableReplicas > 0)
            && (phase == RollingOut <==> !s.spec.suspended && !over && surplus)
            && (phase == Pending <==> !s.spec.suspended && !over && !surplus && !Healthy(h, desired))
  {
  }

  /** A rollout that is left in progress has its start recorded and time left. */
  lemma UnfinishedRolloutHasTime(cfg: Config, s: State, buildId: string, i: Inputs)
    requires i.podFailure != InfraFailure && i.deploymentRead
    ensures var t := AssessAndFinalize(cfg, s, buildId, i);
            t.status.phase == Pending || t.status.phase == RollingOut ==>
              t.status.rolloutStartedAt.Some? && i.now - t.status.rolloutStartedAt.value < cfg.rolloutTimeout
  {
  }

  /** A Deployment that is gone again counts as starting up until its time is over. */
  lemma MissingDeploymentPhase(cfg: Config, s: State, i: Inputs)
    requires s.workload.None? && !s.spec.suspended
    ensures var started := if s.status.rolloutStartedAt.Some? then s.status.rolloutStartedAt.value else i.now;
            Assessed(cfg, s, i) == if i.now - started >= cfg.rolloutTimeout then RolloutFailed else Pending
  {
  }

  /** An infrastructure failure leaves everything as it was, the rollout's clock included. */
  lemma InfraFailureWritesNothing(cfg: Config, s: State, buildId: string, i: Inputs)
    requires i.deploymentRead && !s.spec.suspended && IsFailedPhase(Assessed(cfg, s, i))
    requires i.podFailure == InfraFailure && s.status.failedRolloutGeneration != s.generation
    ensures AssessAndFinalize(cfg, s, buildId, i) == s
  {
  }

  /**
   * The clock of a rollout starts when it is first seen in progress and keeps its start while it is. A rollout
   * that has ended, by success, by suspension or by a failure that is remediated, leaves none behind.
   */
  lemma RolloutClock(cfg: Config, s: State, buildId: string, i: Inputs)
    requires i.deploymentRead || s.spec.suspended
    requires i.podFailure != InfraFailure || s.status.failedRolloutGeneration == s.generation
    ensures var phase, clock := Assessed(cfg, s, i), AssessAndFinalize(cfg, s, buildId, i).status.rolloutStartedAt;
            && (phase == Pending || phase == RollingOut ==>
                  clock == if s.status.rolloutStartedAt.Some? then s.status.rolloutStartedAt else Some(i.now))
            && (phase == Running || phase == Suspended ==> clock == None)
            && (IsFailedPhase(phase) && s.status.failedRolloutGeneration != s.generation ==> clock == None)
  {
  }

  // ----- replicas -----

  lemma ConclusionReplicas(s: State, tracked: State, phase: Phase, buildId: string, i: Inputs)
    requires s.workload.Some? && tracked == s.(status := s.status.(rolloutStartedAt := tracked.status.rolloutStartedAt))
    requires s.workload.value.replicas == Replicas(s) && i.podFailure != InfraFailure && i.scaleDown == Applied
    requires !AlreadyFailed(s)
    ensures var t := Conclude(s, tracked, phase, buildId, i);
            && t.workload.Some?
            && t.workload.value.replicas ==
               if s.spec.suspended || (phase == Failed && s.status.failedRolloutGeneration != s.generation) then 0 else 1
  {
  }

  /**
   * After a rollout whose apply and scale-down calls go through, a suspended deployment has no replicas. One
   * that is assessed as Failed is meant to have none either, and has none exactly when its failure mark was
   * still free: a generation that used the mark for a build retry keeps its failing replica. All others,
   * those whose Deployment could not be read included, have one.
   */
  lemma FailedIsScaledDownExactly(cfg: Config, s: State, buildId: string, full: bool, i: Inputs)
    requires i.apply == Applied && i.scaleDown == Applied && i.podFailure != InfraFailure && !AlreadyFailed(s)
    ensures var t := RollOut(cfg, s, buildId, full, i);
            && t.workload.Some?
            && (t.spec.suspended ==> t.workload.value.replicas == 0)
            && (!t.spec.suspended && (t.status.phase != Failed || !i.deploymentRead) ==> t.workload.value.replicas == 1)
            && (!t.spec.suspended && t.status.phase == Failed && i.deploymentRead ==>
                  t.workload.value.replicas == if s.status.failedRolloutGeneration != s.generation then 0 else 1)
  {
    var applied := TrackIf(full, cfg, ReconcileDeployment(s, buildId, i.apply).state, i.now);
    var determined := DetermineDeploymentPhase(applied, i.health);
    var tracked := TrackRolloutStart(applied, determined, i.now);
    ConclusionReplicas(applied, tracked, CheckRolloutTimeout(cfg, tracked, i.health, determined, i.now), buildId, i);
    AssessmentRollsOut(cfg, applied, buildId, i);
  }

  /** And it keeps it for as long as the generation lasts, unless the Deployment is deleted. */
  lemma FailingReplicaStays(cfg: Config, s: State, buildId: string, full: bool, i: Inputs, later: seq<Step>)
    requires i.apply == Applied && i.scaleDown == Applied && i.podFailure != InfraFailure && !AlreadyFailed(s)
    requires s.status.failedRolloutGeneration == s.generation && s.status.lastReconciledGeneration <= s.generation
    requires !s.spec.suspended && RollOut(cfg, s, buildId, full, i).status.phase == Failed
    requires After(cfg, RollOut(cfg, s, buildId, full, i), later).generation == s.generation
    ensures var t := After(cfg, RollOut(cfg, s, buildId, full, i), later);
            t.workload.Some? ==> t.workload.value.replicas == 1
  {
    var t := RollOut(cfg, s, buildId, full, i);
    RollOutRollsOut(cfg, s, buildId, full, i);
    FailedIsScaledDownExactly(cfg, s, buildId, full, i);
    FailureIsFinal(cfg, t, later);
  }

  // ----- the Secret gate -----

  predicate MissesSecret(i: Inputs) { i.secret == SecretMissing && !i.capacityFull }

  function CountUp(retries: nat, n: nat): nat { if retries + n < 3 then retries + n else if retries > 3 then retries else 3 }

  /**
   * While a referenced Secret stays missing, the first three reconciles only count and every later one ends
   * in RolloutFailed; nothing is built or deployed meanwhile.
   */
  lemma {:induction false} MissingSecretRun(cfg: Config, s: State, steps: seq<Step>)
    requires s.spec.secretName != "" && !NeedsMigration(s.spec)
    requires forall k :: 0 <= k < |steps| ==> steps[k].Reconciles? && MissesSecret(steps[k].inputs)
    ensures var t := After(cfg, s, steps);
            && t.spec == s.spec && t.generation == s.generation && t.jobs == s.jobs && t.workload == s.workload
            && t.notes == s.notes
            && t.status.secretCheckRetries == CountUp(s.status.secretCheckRetries, |steps|)
            && (steps != [] && s.status.secretCheckRetries + |steps| > 3 ==> t.status.phase == RolloutFailed)
    decreases |steps|
  {
    if steps != [] {
      var last := |steps| - 1;
      MissingSecretRun(cfg, s, steps[..last]);
      MissOnce(cfg, After(cfg, s, steps[..last]), steps[last].inputs);
    }
  }

  lemma MissOnce(cfg: Config, s: State, i: Inputs)
    requires s.spec.secretName != "" && !NeedsMigration(s.spec) && MissesSecret(i)
    ensures var t := Reconcile(cfg, s, i);
            && t.spec == s.spec && t.generation == s.generation && t.jobs == s.jobs && t.workload == s.workload
            && t.notes == s.notes
            && if s.status.secretCheckRetries < 3
               then t.status.secretCheckRetries == s.status.secretCheckRetries + 1
               else t.status.secretCheckRetries == s.status.secretCheckRetries && t.status.phase == RolloutFailed
  {
  }

  // ----- the name migration -----

  /**
   * The migration counts as reconciled: a full reconcile follows exactly when the schema is out of date.
   * The build stays the same, but a failure mark is left behind by the new generation.
   */
  lemma MigrationIsQuiet(cfg: Config, s: State, i: Inputs)
    requires NeedsMigration(s.spec) && s.status.failedRolloutGeneration <= s.generation
    ensures var t := Reconcile(cfg, s, i);
            && (NeedsFullReconciliation(t) <==> s.status.schemaVersion != SCHEMA_VERSION)
            && ComputeBuildId(cfg, t.spec) == ComputeBuildId(cfg, s.spec)
            && t.jobs == s.jobs && t.workload == s.workload
            && !NeedsMigration(t.spec) && !AlreadyFailed(t)
            && t.spec.displayName == s.spec.legacyName && t.spec.legacyName == ""
            && t.spec.(legacyName := s.spec.legacyName, displayName := s.spec.displayName) == s.spec
  {
  }
}
