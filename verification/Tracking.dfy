/** When a generation counts as reconciled, and what a suspended or Secret-bound deployment remembers. */
module Tracking {
  import opened Labels
  import opened Releases
  import opened Operator
  import opened Runs
  import opened Retries
  import opened Rollouts
  import opened Slots

  // ----- the generation's record -----

  predicate SecretPasses(s: State, i: Inputs) { s.spec.secretName == "" || i.secret == SecretFound }

  /** The reconcile comes to an end that is recorded: it deploys, waits for code, or finds the generation failed. */
  predicate Settles(cfg: Config, s: State, i: Inputs) {
    && !NeedsMigration(s.spec) && !(GatesConsulted(s) && i.capacityFull)
    && SecretPasses(s, i) && IsValidLabel(cfg.name)
    && (AlreadyFailed(s) || s.spec.repoUrl == "" || (BuildReady(cfg, s, i) && Accepted(i.apply)))
  }

  /** t carries the record of one tracking pass over s if that was due, and otherwise what s carried. */
  predicate TrackedIfDue(cfg: Config, s: State, t: State, now: int) {
    if NeedsFullReconciliation(s) then
      && t.status.schemaVersion == "7"
      && t.status.lastReconciledGeneration == s.generation
      && t.status.releaseHistory ==
         Record(s.status.releaseHistory, Release(s.spec.gitSha, ContainerImageTag(cfg, s.spec), now))
    else SameTracking(s, t)
  }

  lemma AssessmentTracksNothing(cfg: Config, s: State, buildId: string, i: Inputs)
    ensures SameTracking(s, AssessAndFinalize(cfg, s, buildId, i))
  {
  }

  lemma RollOutTracks(cfg: Config, s: State, buildId: string, full: bool, i: Inputs)
    ensures var t := RollOut(cfg, s, buildId, full, i);
            if Accepted(i.apply) then SameTracking(TrackIf(full, cfg, s, i.now), t) else SameTracking(s, t)
  {
    var applied := ReconcileDeployment(s, buildId, i.apply).state;
    AssessmentTracksNothing(cfg, TrackIf(full, cfg, applied, i.now), buildId, i);
  }

  lemma BuildTracksNothing(cfg: Config, s: State, answer: JobAnswer)
    ensures SameTracking(s, ReconcileBuild(cfg, s, answer).state)
  {
  }

  /** A reconcile that settles records the generation if that was due; any other leaves the record alone. */
  lemma ReconcileTracks(cfg: Config, s: State, i: Inputs)
    requires !NeedsMigration(s.spec)
    ensures var t := Reconcile(cfg, s, i);
            if Settles(cfg, s, i) then TrackedIfDue(cfg, s, t, i.now) else SameTracking(s, t)
  {
    if BuildReady(cfg, s, i) {
      var t, buildId := ReadyRollsOut(cfg, s, i);
      RollOutTracks(cfg, t, buildId, NeedsFullReconciliation(s), i);
    } else if ReachesBuild(cfg, s, i) {
      ReconcileSplits(cfg, s, i);
      GatesHandOn(cfg, s, i);
      BuildTracksNothing(cfg, AtBuild(s, i), i.jobAnswer);
      NotReadyInProgress(cfg, s, i);
    }
  }

  lemma NotReadyInProgress(cfg: Config, s: State, i: Inputs)
    requires ReachesBuild(cfg, s, i) && !BuildReady(cfg, s, i)
    ensures Reconcile(cfg, s, i) == ReconcileBuild(cfg, AtBuild(s, i), i.jobAnswer).state
  {
    ReconcileSplits(cfg, s, i);
    GatesHandOn(cfg, s, i);
    if JobsAnswered(i.jobAnswer) {
      BuiltPhase(cfg, AtBuild(s, i), i.jobAnswer);
    }
  }

  /** A generation needs no full reconcile any more exactly when it needed none or the reconcile settles. */
  lemma SettledExactly(cfg: Config, s: State, i: Inputs)
    requires !NeedsMigration(s.spec)
    ensures !NeedsFullReconciliation(Reconcile(cfg, s, i)) <==>
            !NeedsFullReconciliation(s) || (Settles(cfg, s, i) && s.generation > 0)
  {
    ReconcileTracks(cfg, s, i);
    ReconcileKeepsGeneration(cfg, s, i);
  }

  /** A new deployment needs a full reconcile, and every edit makes one due again. */
  lemma EditUnsettles(cfg: Config, spec: Spec, s: State, edited: Spec)
    requires MarksInRange(s)
    ensures NeedsFullReconciliation(Fresh(spec)) && NeedsFullReconciliation(Next(cfg, s, EditSpec(edited)))
  {
  }

  lemma ReconcileKeepsGeneration(cfg: Config, s: State, i: Inputs)
    requires !NeedsMigration(s.spec)
    ensures Reconcile(cfg, s, i).generation == s.generation
  {
    ReconcileSplits(cfg, s, i);
    if BuildReady(cfg, s, i) {
      var t, buildId := ReadyRollsOut(cfg, s, i);
      RollOutRollsOut(cfg, t, buildId, NeedsFullReconciliation(s), i);
    } else if ReachesBuild(cfg, s, i) {
      NotReadyInProgress(cfg, s, i);
      GatesKeepBuild(s, i);
      BuildKeepsSpec(cfg, AtBuild(s, i), i.jobAnswer);
    }
  }

  lemma StepKeepsSettled(cfg: Config, s: State, step: Step)
    requires s.generation > 0 && !NeedsFullReconciliation(s) && !step.EditSpec?
    ensures Next(cfg, s, step).generation > 0 && !NeedsFullReconciliation(Next(cfg, s, step))
  {
    if step.Reconciles? && !NeedsMigration(s.spec) {
      SettledExactly(cfg, s, step.inputs);
      ReconcileKeepsGeneration(cfg, s, step.inputs);
    }
  }

  /** Once settled, a deployment needs no full reconcile, and so asks no capacity gate, until its spec is edited. */
  lemma {:induction false} SettledUntilEdited(cfg: Config, s: State, steps: seq<Step>)
    requires s.generation > 0 && !NeedsFullReconciliation(s)
    requires forall k :: 0 <= k < |steps| ==> !steps[k].EditSpec?
    ensures var t := After(cfg, s, steps);
            t.generation > 0 && !NeedsFullReconciliation(t) && !GatesConsulted(t)
    decreases |steps|
  {
    if steps != [] {
      var last := |steps| - 1;
      SettledUntilEdited(cfg, s, steps[..last]);
      StepKeepsSettled(cfg, After(cfg, s, steps[..last]), steps[last]);
    }
  }

  // ----- the Secret counter -----

  lemma RollOutKeepsRetries(cfg: Config, s: State, buildId: string, full: bool, i: Inputs)
    ensures RollOut(cfg, s, buildId, full, i).status.secretCheckRetries == s.status.secretCheckRetries
  {
    var applied := TrackIf(full, cfg, ReconcileDeployment(s, buildId, i.apply).state, i.now);
    AssessmentKeepsRetries(cfg, applied, buildId, i);
  }

  lemma AssessmentKeepsRetries(cfg: Config, s: State, buildId: string, i: Inputs)
    ensures AssessAndFinalize(cfg, s, buildId, i).status.secretCheckRetries == s.status.secretCheckRetries
  {
  }

  lemma BuildKeepsRetries(cfg: Config, s: State, answer: JobAnswer)
    ensures ReconcileBuild(cfg, s, answer).state.status.secretCheckRetries == s.status.secretCheckRetries
  {
  }

  /** A Secret that is found restores all retries: from then on, n misses in a row count from zero. */
  lemma FoundSecretRestoresRetries(cfg: Config, s: State, i: Inputs, misses: seq<Step>)
    requires s.spec.secretName != "" && !NeedsMigration(s.spec) && i.secret == SecretFound
    requires !(GatesConsulted(s) && i.capacityFull)
    requires forall k :: 0 <= k < |misses| ==> misses[k].Reconciles? && MissesSecret(misses[k].inputs)
    ensures Reconcile(cfg, s, i).status.secretCheckRetries == 0
    ensures After(cfg, Reconcile(cfg, s, i), misses).status.secretCheckRetries == CountUp(0, |misses|)
  {
    ReconcileSplits(cfg, s, i);
    GatesKeepBuild(s, i);
    if ReachesBuild(cfg, s, i) {
      BuildKeepsRetries(cfg, AtBuild(s, i), i.jobAnswer);
      BuildKeepsSpec(cfg, AtBuild(s, i), i.jobAnswer);
      var build := ReconcileBuild(cfg, AtBuild(s, i), i.jobAnswer);
      if build.Ready? {
        RollOutKeepsRetries(cfg, build.state, build.buildId, NeedsFullReconciliation(s), i);
        RollOutRollsOut(cfg, build.state, build.buildId, NeedsFullReconciliation(s), i);
      }
    }
    MissingSecretRun(cfg, Reconcile(cfg, s, i), misses);
  }

  // ----- builds of suspended deployments -----

  /**
   * A suspended deployment builds once for each time its counter is raised: when the Job has succeeded, the
   * build is skipped from then on, and after an edit it is skipped exactly while the deployment stays suspended
   * and the counter is not raised past that build's, or there is no code.
   */
  lemma SuspendedBuildsOnce(cfg: Config, s: State, i: Inputs, edited: Spec)
    requires BuildReady(cfg, s, i) && s.spec.suspended && !SkipsBuild(s) && !BuildCached(cfg, s)
    ensures var t := Reconcile(cfg, s, i);
            && SkipsBuild(t)
            && (SkipsBuild(Next(cfg, t, EditSpec(edited))) <==>
                  edited.repoUrl == "" || (edited.suspended && edited.buildGeneration <= s.spec.buildGeneration))
  {
    ReconcileSplits(cfg, s, i);
    GatesKeepBuild(s, i);
    GatesHandOn(cfg, s, i);
    var build := ReconcileBuild(cfg, AtBuild(s, i), i.jobAnswer);
    assert build.Ready? && build.state.status.lastBuiltGeneration == s.spec.buildGeneration;
    RollOutRollsOut(cfg, build.state, build.buildId, NeedsFullReconciliation(s), i);
  }

  // ----- what else a reconcile keeps or takes down -----

  /** A reconcile changes the spec exactly when there is a name to move and no display name in its place. */
  lemma SpecKeptExactly(cfg: Config, s: State, i: Inputs)
    ensures Reconcile(cfg, s, i).spec == s.spec <==> s.spec.legacyName == "" || s.spec.displayName != ""
  {
    if NeedsMigration(s.spec) {
      assert Reconcile(cfg, s, i).spec.displayName == s.spec.legacyName;
    } else {
      ReconcileSplits(cfg, s, i);
      if BuildReady(cfg, s, i) {
        var t, buildId := ReadyRollsOut(cfg, s, i);
        RollOutRollsOut(cfg, t, buildId, NeedsFullReconciliation(s), i);
      } else if ReachesBuild(cfg, s, i) {
        NotReadyInProgress(cfg, s, i);
        GatesKeepBuild(s, i);
        BuildKeepsSpec(cfg, AtBuild(s, i), i.jobAnswer);
      }
    }
  }

  /** A deployment whose name is no label is taken down: no Deployment stays, no Job is made. */
  lemma InvalidNameTearsDown(cfg: Config, s: State, i: Inputs)
    requires !IsValidLabel(cfg.name) && !NeedsMigration(s.spec)
    requires !(GatesConsulted(s) && i.capacityFull) && SecretPasses(s, i)
    ensures var t := Reconcile(cfg, s, i);
            t.workload.None? && t.status.phase == Failed && t.jobs == s.jobs && t.notes == s.notes
  {
  }

  /** A running Job is noticed once: then its build counts as running and it is not noticed again. */
  lemma NoticedOnce(cfg: Config, s: State, i: Inputs)
    requires NoticesJob(cfg, s, i)
    ensures var t := Reconcile(cfg, s, i);
            t.status.buildStatus == BuildRunning && t.status.phase == Building && !NoticesJob(cfg, t, i)
  {
    NotReadyInProgress(cfg, s, i);
    GatesHandOn(cfg, s, i);
    assert ReconcileBuild(cfg, AtBuild(s, i), i.jobAnswer).state.status.buildStatus == BuildRunning;
    PhaseWithoutRollout(cfg, s, i);
  }

  /** The recorded image tag is the spec's without the server's prefix, or the default where the spec has none. */
  lemma RecordedTag(cfg: Config, spec: Spec, tag: string)
    ensures spec.imageTag == "" ==> ContainerImageTag(cfg, spec) == cfg.defaultImageTag
    ensures spec.imageTag == "appserver-" + tag ==> ContainerImageTag(cfg, spec) == tag
    ensures spec.imageTag == tag != "" && !("appserver-" <= tag) ==> ContainerImageTag(cfg, spec) == tag
  {
    assert |"appserver-"| == 10 && ("appserver-" + tag)[10..] == tag;
  }
}
