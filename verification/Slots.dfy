/**
 * Which steps take up a rollout slot or a deployment slot without the capacity gates being asked: read off
 * the state before the step and the answers it gets.
 */
module Slots {
  import opened Options
  import opened Labels
  import opened Operator
  import opened Runs
  import opened Rollouts

  /** The step is a reconcile that asks the capacity gates. */
  predicate Gated(s: State, step: Step) {
    step.Reconciles? && GatesConsulted(s) && !NeedsMigration(s.spec)
  }

  predicate Rolling(s: State) { !s.spec.suspended && IsRollingPhase(s.status.phase) }

  predicate Active(s: State) { IsActivePhase(s.status.phase) }

  /** The phases that hold a slot. */
  lemma SlotPhases(s: State)
    ensures Active(s) <==> s.status.phase in {Pending, Running, RollingOut, RolloutFailed}
    ensures Rolling(s) <==> !s.spec.suspended && s.status.phase in {Pending, RollingOut, Building}
  {
  }

  // ----- what a reconcile will meet -----

  /** The Job that a due build finds under its name, once a superseded one is out of the way. */
  function FoundJob(cfg: Config, s: State): Option<Job> {
    var jobs := SupersedeStaleBuildJob(cfg, s, ComputeBuildId(cfg, s.spec)).jobs;
    if CurrentJobName(cfg, s) in jobs then Some(jobs[CurrentJobName(cfg, s)]) else None
  }

  predicate CreatesJob(cfg: Config, s: State, i: Inputs) {
    && DueForBuild(cfg, s, i) && FoundJob(cfg, s).None?
    && i.jobAnswer == CreateAccepted && IsValidLabel(CurrentJobName(cfg, s))
  }

  predicate NoticesJob(cfg: Config, s: State, i: Inputs) {
    && DueForBuild(cfg, s, i) && FoundJob(cfg, s).Some? && FoundJob(cfg, s).value.state == JobActive
    && s.status.buildStatus != BuildRunning
  }

  /** A build is at hand, or none is wanted. */
  predicate BuildReady(cfg: Config, s: State, i: Inputs) {
    && ReachesBuild(cfg, s, i)
    && (|| SkipsBuild(s) || BuildCached(cfg, s)
        || (DueForBuild(cfg, s, i) && FoundJob(cfg, s).Some? && FoundJob(cfg, s).value.state == JobSucceeded))
  }

  predicate Accepted(result: ApplyResult) { result == Applied || result == AppliedUnread }

  /** A build is at hand, it is deployed, and the Deployment's health is looked at. */
  predicate Assesses(cfg: Config, s: State, i: Inputs) {
    BuildReady(cfg, s, i) && Accepted(i.apply) && !s.spec.suspended && i.deploymentRead
  }

  /** The one wanted replica, and no other, is up. */
  predicate AllUp(h: Health) {
    h.availableReplicas > 0 && h.available == IsTrue && h.progressing == IsTrue && h.readyReplicas == h.replicas == 1
  }

  predicate Fails(cfg: Config, s: State, i: Inputs) { GivenUp(cfg, s, i) && !AllUp(i.health) }

  predicate Excused(s: State, i: Inputs) {
    i.podFailure == InfraFailure && s.status.failedRolloutGeneration != s.generation
  }

  predicate SecretOutstanding(s: State, i: Inputs) {
    s.spec.secretName != "" &&
    (i.secret == SecretReadError || (i.secret == SecretMissing && s.status.secretCheckRetries < 3))
  }

  /** A build is due, and the reconcile ends without a word on how it stands. */
  predicate BuildUndecided(cfg: Config, s: State, i: Inputs) {
    && ReachesBuild(cfg, s, i) && !SkipsBuild(s) && !BuildCached(cfg, s)
    && (|| !JobsAnswered(i.jobAnswer)
        || (FoundJob(cfg, s).None? && (i.jobAnswer != CreateAccepted || !IsValidLabel(CurrentJobName(cfg, s))))
        || (FoundJob(cfg, s).Some? && FoundJob(cfg, s).value.state == JobActive && s.status.buildStatus == BuildRunning)
        || (FoundJob(cfg, s).Some? && FoundJob(cfg, s).value.ShowsFailure()
            && s.status.failedRolloutGeneration != s.generation))
  }

  /** The reconcile gives the deployment its first phase and ends before it finds another. */
  predicate StaysPending(cfg: Config, s: State, i: Inputs) {
    && s.status.phase == Unset && !NeedsMigration(s.spec)
    && (|| SecretOutstanding(s, i)
        || BuildUndecided(cfg, s, i)
        || (BuildReady(cfg, s, i) && Accepted(i.apply) && !s.spec.suspended && !i.deploymentRead)
        || (Assesses(cfg, s, i) && Fails(cfg, s, i) && Excused(s, i)))
  }

  /** A step that is not gated takes up a rollout slot. */
  predicate TakesRolloutSlot(cfg: Config, s: State, step: Step) {
    match step
    case Reconciles(i) =>
      !s.spec.suspended &&
      (|| CreatesJob(cfg, s, i)
       || NoticesJob(cfg, s, i)
       || (Assesses(cfg, s, i) && !GivenUp(cfg, s, i) && !AllUp(i.health))
       || StaysPending(cfg, s, i))
    case EditSpec(spec) => s.spec.suspended && !spec.suspended && IsRollingPhase(s.status.phase)
    case _ => false
  }

  /** A step that is not gated takes up a deployment slot. */
  predicate TakesDeploymentSlot(cfg: Config, s: State, step: Step) {
    step.Reconciles? &&
    var i := step.inputs;
    || (&& !NeedsMigration(s.spec) && s.spec.secretName != ""
        && i.secret == SecretMissing && s.status.secretCheckRetries >= 3)
    || (Assesses(cfg, s, i) && !(Fails(cfg, s, i) && (Excused(s, i) || i.health.availableReplicas == 0)))
    || StaysPending(cfg, s, i)
  }

  // ----- the phase a reconcile ends in -----

  lemma AssessedPhase(cfg: Config, s: State, i: Inputs)
    requires !s.spec.suspended && s.workload.Some? && s.workload.value.replicas == 1
    ensures var phase := Assessed(cfg, s, i);
            && (AllUp(i.health) ==> phase == Running)
            && (Fails(cfg, s, i) ==> phase == if i.health.availableReplicas == 0 then Failed else RolloutFailed)
            && (!GivenUp(cfg, s, i) && !AllUp(i.health) ==> phase == Pending || phase == RollingOut)
  {
  }

  lemma ConcludedPhase(cfg: Config, s: State, buildId: string, i: Inputs)
    requires !s.spec.suspended && i.deploymentRead
    ensures AssessAndFinalize(cfg, s, buildId, i).status.phase ==
            if IsFailedPhase(Assessed(cfg, s, i)) && Excused(s, i) then s.status.phase else Assessed(cfg, s, i)
  {
  }

  lemma RolledOutPhase(cfg: Config, s: State, buildId: string, full: bool, i: Inputs)
    requires !AlreadyFailed(s)
    ensures var phase := RollOut(cfg, s, buildId, full, i).status.phase;
            && (!Accepted(i.apply) ==> phase == Failed)
            && (Accepted(i.apply) && s.spec.suspended ==> phase == Suspended)
            && (Accepted(i.apply) && !s.spec.suspended ==>
                  if !i.deploymentRead || (Fails(cfg, s, i) && Excused(s, i)) then phase == s.status.phase
                  else if Fails(cfg, s, i) then phase == if i.health.availableReplicas == 0 then Failed else RolloutFailed
                  else if AllUp(i.health) then phase == Running
                  else phase == Pending || phase == RollingOut)
  {
    if Accepted(i.apply) {
      var applied := ReconcileDeployment(s, buildId, i.apply).state;
      var t := TrackIf(full, cfg, applied, i.now);
      assert t.status.phase == s.status.phase && Excused(t, i) == Excused(s, i) && t.spec == s.spec;
      if !s.spec.suspended && i.deploymentRead {
        assert GivenUp(cfg, t, i) == GivenUp(cfg, s, i);
        AssessedPhase(cfg, t, i);
        ConcludedPhase(cfg, t, buildId, i);
      }
    }
  }

  /** What the build stage leaves unsaid when it hands a state on to the rollout. */
  predicate HandsOn(s: State, t: State) {
    && t.spec == s.spec && t.generation == s.generation
    && t.status.phase == s.status.phase
    && t.status.failedRolloutGeneration == s.status.failedRolloutGeneration
    && t.status.rolloutStartedAt == s.status.rolloutStartedAt
    && SameTracking(s, t)
  }

  /** Nothing was tracked between s and t. */
  predicate SameTracking(s: State, t: State) {
    && t.status.schemaVersion == s.status.schemaVersion
    && t.status.lastReconciledGeneration == s.status.lastReconciledGeneration
    && t.status.releaseHistory == s.status.releaseHistory
  }

  lemma BuiltPhase(cfg: Config, s: State, answer: JobAnswer)
    requires !SkipsBuild(s) && !BuildCached(cfg, s) && JobsAnswered(answer)
    ensures var build, found := ReconcileBuild(cfg, s, answer), FoundJob(cfg, s);
            if found.None? then
              build.InProgress? && build.state.status.phase ==
                if answer == CreateAccepted && IsValidLabel(CurrentJobName(cfg, s)) then Building else s.status.phase
            else match found.value.state
              case JobSucceeded => build.Ready? && HandsOn(s, build.state)
              case JobActive => build.InProgress? && build.state.status.phase ==
                                  if s.status.buildStatus == BuildRunning then s.status.phase else Building
              case _ => build.InProgress? && build.state.status.phase ==
                          if s.status.failedRolloutGeneration != s.generation then s.status.phase else BuildFailed
  {
  }

  /** The build stage sees the phase that the reconcile starts from, and everything else as it was. */
  lemma GatesHandOn(cfg: Config, s: State, i: Inputs)
    requires ReachesBuild(cfg, s, i)
    ensures HandsOn(InitializeStatus(s), AtBuild(s, i)) && SameBuild(s, AtBuild(s, i))
    ensures !AlreadyFailed(AtBuild(s, i)) && FoundJob(cfg, AtBuild(s, i)) == FoundJob(cfg, s)
    ensures forall later :: HandsOn(AtBuild(s, i), later) ==>
              && Fails(cfg, later, i) == Fails(cfg, s, i)
              && Excused(later, i) == Excused(s, i)
              && GivenUp(cfg, later, i) == GivenUp(cfg, s, i)
  {
    GatesKeepBuild(s, i);
  }

  /** A reconcile that gets as far as the build but not to the rollout. */
  lemma PhaseWithoutRollout(cfg: Config, s: State, i: Inputs)
    requires ReachesBuild(cfg, s, i) && !BuildReady(cfg, s, i)
    ensures Reconcile(cfg, s, i).status.phase ==
            if CreatesJob(cfg, s, i) || NoticesJob(cfg, s, i) then Building
            else if BuildUndecided(cfg, s, i) then InitializeStatus(s).status.phase
            else BuildFailed
  {
    ReconcileSplits(cfg, s, i);
    GatesHandOn(cfg, s, i);
    if JobsAnswered(i.jobAnswer) {
      BuiltPhase(cfg, AtBuild(s, i), i.jobAnswer);
    }
  }

  /** With a build at hand, a reconcile is a rollout from a state that differs only in its build fields. */
  lemma ReadyRollsOut(cfg: Config, s: State, i: Inputs) returns (t: State, buildId: string)
    requires BuildReady(cfg, s, i)
    ensures Reconcile(cfg, s, i) == RollOut(cfg, t, buildId, NeedsFullReconciliation(s), i)
    ensures HandsOn(InitializeStatus(s), t) && t.workload == s.workload && !AlreadyFailed(t)
    ensures t.jobs.Keys <= s.jobs.Keys && (!SkipsBuild(s) ==> t.status.buildId == ComputeBuildId(cfg, s.spec))
    ensures SkipsBuild(t) || BuildCached(cfg, t)
    ensures Fails(cfg, t, i) == Fails(cfg, s, i) && Excused(t, i) == Excused(s, i)
    ensures GivenUp(cfg, t, i) == GivenUp(cfg, s, i)
  {
    ReconcileSplits(cfg, s, i);
    GatesKeepBuild(s, i);
    GatesHandOn(cfg, s, i);
    if !SkipsBuild(s) && !BuildCached(cfg, s) {
      BuiltPhase(cfg, AtBuild(s, i), i.jobAnswer);
    }
    var build := ReconcileBuild(cfg, AtBuild(s, i), i.jobAnswer);
    assert build.Ready? && HandsOn(AtBuild(s, i), build.state);
    t, buildId := build.state, build.buildId;
  }

  /** A reconcile that gets to the rollout. */
  lemma PhaseWithRollout(cfg: Config, s: State, i: Inputs)
    requires BuildReady(cfg, s, i)
    ensures var phase := Reconcile(cfg, s, i).status.phase;
            && (!Accepted(i.apply) ==> phase == Failed)
            && (Accepted(i.apply) && s.spec.suspended ==> phase == Suspended)
            && (Accepted(i.apply) && !s.spec.suspended ==>
                  if !i.deploymentRead || (Fails(cfg, s, i) && Excused(s, i))
                  then phase == InitializeStatus(s).status.phase
                  else if Fails(cfg, s, i) then phase == if i.health.availableReplicas == 0 then Failed else RolloutFailed
                  else if AllUp(i.health) then phase == Running
                  else phase == Pending || phase == RollingOut)
  {
    var t, buildId := ReadyRollsOut(cfg, s, i);
    RolledOutPhase(cfg, t, buildId, NeedsFullReconciliation(s), i);
  }

  lemma PhaseBeforeBuild(cfg: Config, s: State, i: Inputs)
    requires !ReachesBuild(cfg, s, i)
    ensures var phase := Reconcile(cfg, s, i).status.phase;
            if NeedsMigration(s.spec) || (GatesConsulted(s) && i.capacityFull) then phase == s.status.phase
            else if SecretOutstanding(s, i) then phase == InitializeStatus(s).status.phase
            else if s.spec.secretName != "" && i.secret == SecretMissing then phase == RolloutFailed
            else if !IsValidLabel(cfg.name) then phase == Failed
            else if AlreadyFailed(s) then phase == s.status.phase
            else phase == AwaitingCode
  {
  }

  lemma BuildKeepsSpec(cfg: Config, s: State, answer: JobAnswer)
    ensures ReconcileBuild(cfg, s, answer).state.spec == s.spec
    ensures ReconcileBuild(cfg, s, answer).state.generation == s.generation
  {
  }

  lemma ReconcileKeepsSuspension(cfg: Config, s: State, i: Inputs)
    ensures Reconcile(cfg, s, i).spec.suspended == s.spec.suspended
  {
    ReconcileSplits(cfg, s, i);
    if ReachesBuild(cfg, s, i) {
      GatesKeepBuild(s, i);
      BuildKeepsSpec(cfg, AtBuild(s, i), i.jobAnswer);
      var build := ReconcileBuild(cfg, AtBuild(s, i), i.jobAnswer);
      if build.Ready? {
        RollOutRollsOut(cfg, build.state, build.buildId, NeedsFullReconciliation(s), i);
      }
    }
  }

  /** Past the gates, an ungated reconcile of a deployment without the slot starts from its own phase or Pending. */
  lemma FirstPhase(s: State)
    requires !GatesConsulted(s)
    ensures !Rolling(s) && !s.spec.suspended ==>
              InitializeStatus(s).status.phase == if s.status.phase == Unset then Pending else s.status.phase
    ensures !Active(s) ==>
              InitializeStatus(s).status.phase == if s.status.phase == Unset then Pending else s.status.phase
  {
  }

  /** A first or full reconcile starts over as Pending what was pending, rolling out or running; all else is kept. */
  lemma FirstPhaseExactly(s: State)
    ensures var restarts := s.status.phase == Unset ||
                            (NeedsFullReconciliation(s) && s.status.phase in {Pending, RollingOut, Running});
            InitializeStatus(s) == SetPhase(s, if restarts then Pending else s.status.phase)
  {
  }

  // ----- where the capacity verdict is read -----

  lemma AssessmentIgnoresVerdict(cfg: Config, s: State, buildId: string, i: Inputs, full: bool)
    ensures AssessAndFinalize(cfg, s, buildId, i) == AssessAndFinalize(cfg, s, buildId, i.(capacityFull := full))
  {
  }

  lemma StagesIgnoreVerdict(cfg: Config, s: State, tracks: bool, i: Inputs, full: bool)
    ensures AfterGates(cfg, s, tracks, i) == AfterGates(cfg, s, tracks, i.(capacityFull := full))
  {
    var build := ReconcileBuild(cfg, s, i.jobAnswer);
    if build.Ready? {
      var applied := TrackIf(tracks, cfg, ReconcileDeployment(build.state, build.buildId, i.apply).state, i.now);
      AssessmentIgnoresVerdict(cfg, applied, build.buildId, i, full);
    }
  }

  /**
   * A full namespace stops exactly the gated reconciles, and those change nothing. Suspended deployments, ones
   * that wait for code and ones that need no full reconcile are reconciled as if there were room.
   */
  lemma VerdictReadExactly(cfg: Config, s: State, i: Inputs)
    ensures Gated(s, Reconciles(i)) ==> Reconcile(cfg, s, i.(capacityFull := true)) == s
    ensures s.spec.suspended || s.status.phase == AwaitingCode || !NeedsFullReconciliation(s) ==>
              Reconcile(cfg, s, i.(capacityFull := true)) == Reconcile(cfg, s, i.(capacityFull := false))
  {
    var passed := CheckSecretGate(InitializeStatus(s), i.secret);
    StagesIgnoreVerdict(cfg, passed.state, NeedsFullReconciliation(s), i, true);
    StagesIgnoreVerdict(cfg, passed.state, NeedsFullReconciliation(s), i, false);
  }

  // ----- exactly which ungated steps take up a slot -----

  /** A reconcile gets past the migration and asks no gate. */
  predicate Ungated(s: State) { !GatesConsulted(s) && !NeedsMigration(s.spec) }

  lemma SlotsBeforeBuild(cfg: Config, s: State, i: Inputs)
    requires Ungated(s) && !ReachesBuild(cfg, s, i)
    ensures !Rolling(s) && !s.spec.suspended ==>
              (IsRollingPhase(Reconcile(cfg, s, i).status.phase) <==> TakesRolloutSlot(cfg, s, Reconciles(i)))
    ensures !Active(s) ==>
              (IsActivePhase(Reconcile(cfg, s, i).status.phase) <==> TakesDeploymentSlot(cfg, s, Reconciles(i)))
  {
    FirstPhase(s);
    PhaseBeforeBuild(cfg, s, i);
  }

  lemma SlotsWithoutRollout(cfg: Config, s: State, i: Inputs)
    requires Ungated(s) && ReachesBuild(cfg, s, i) && !BuildReady(cfg, s, i)
    ensures !Rolling(s) && !s.spec.suspended ==>
              (IsRollingPhase(Reconcile(cfg, s, i).status.phase) <==> TakesRolloutSlot(cfg, s, Reconciles(i)))
    ensures !Active(s) ==>
              (IsActivePhase(Reconcile(cfg, s, i).status.phase) <==> TakesDeploymentSlot(cfg, s, Reconciles(i)))
  {
    FirstPhase(s);
    PhaseWithoutRollout(cfg, s, i);
  }

  lemma RolloutSlotWithRollout(cfg: Config, s: State, i: Inputs)
    requires Ungated(s) && BuildReady(cfg, s, i) && !Rolling(s) && !s.spec.suspended
    ensures IsRollingPhase(Reconcile(cfg, s, i).status.phase) <==> TakesRolloutSlot(cfg, s, Reconciles(i))
  {
    FirstPhase(s);
    PhaseWithRollout(cfg, s, i);
  }

  lemma DeploymentSlotWithRollout(cfg: Config, s: State, i: Inputs)
    requires Ungated(s) && BuildReady(cfg, s, i) && !Active(s)
    ensures IsActivePhase(Reconcile(cfg, s, i).status.phase) <==> TakesDeploymentSlot(cfg, s, Reconciles(i))
  {
    FirstPhase(s);
    PhaseWithRollout(cfg, s, i);
  }

  lemma SlotsAfterReconcile(cfg: Config, s: State, i: Inputs)
    requires Ungated(s)
    ensures !Rolling(s) && !s.spec.suspended ==>
              (IsRollingPhase(Reconcile(cfg, s, i).status.phase) <==> TakesRolloutSlot(cfg, s, Reconciles(i)))
    ensures !Active(s) ==>
              (IsActivePhase(Reconcile(cfg, s, i).status.phase) <==> TakesDeploymentSlot(cfg, s, Reconciles(i)))
  {
    if !ReachesBuild(cfg, s, i) {
      SlotsBeforeBuild(cfg, s, i);
    } else if BuildReady(cfg, s, i) {
      if !Rolling(s) && !s.spec.suspended {
        RolloutSlotWithRollout(cfg, s, i);
      }
      if !Active(s) {
        DeploymentSlotWithRollout(cfg, s, i);
      }
    } else {
      SlotsWithoutRollout(cfg, s, i);
    }
  }

  /** A deployment without a rollout slot, whose step asks no gate, has one afterwards exactly then. */
  lemma RolloutSlotExactly(cfg: Config, s: State, step: Step)
    requires !Gated(s, step) && !Rolling(s)
    ensures Rolling(Next(cfg, s, step)) <==> TakesRolloutSlot(cfg, s, step)
  {
    if step.Reconciles? {
      ReconcileKeepsSuspension(cfg, s, step.inputs);
      if !NeedsMigration(s.spec) {
        SlotsAfterReconcile(cfg, s, step.inputs);
      }
    }
  }

  /** And likewise for a deployment slot. */
  lemma DeploymentSlotExactly(cfg: Config, s: State, step: Step)
    requires !Gated(s, step) && !Active(s)
    ensures Active(Next(cfg, s, step)) <==> TakesDeploymentSlot(cfg, s, step)
  {
    if step.Reconciles? && !NeedsMigration(s.spec) {
      SlotsAfterReconcile(cfg, s, step.inputs);
    }
  }
}
