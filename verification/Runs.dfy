/** Runs of one deployment: reconciles interleaved with spec edits and with what the cluster does to Jobs. */
module Runs {
  import opened Options
  import opened Labels
  import opened Operator

  datatype Step =
    | Reconciles(inputs: Inputs)
    | EditSpec(spec: Spec)
    | JobMoves(job: string, to: JobState)
    | JobVanishes(job: string)
    | WorkloadDeleted

  /** SHA-256 in hexadecimal: 64 digits. */
  ghost predicate ValidConfig(cfg: Config) {
    forall content :: |cfg.sha256(content)| == 64 && forall k :: 0 <= k < 64 ==> IsHexDigit(cfg.sha256(content)[k])
  }

  predicate JobCanMove(from: JobState, to: JobState) {
    match from
    case JobActive => to != JobActive
    case JobRetrying => to == JobSucceeded || to == JobFailed
    case _ => false
  }

  /** The current generation's build has been seen to end. */
  predicate OutcomeRecorded(cfg: Config, s: State) { BuildCached(cfg, s) || AlreadyFailed(s) }

  function MoveJob(s: State, name: string, to: JobState): State {
    if name !in s.jobs || !JobCanMove(s.jobs[name].state, to) then s
    else s.(jobs := s.jobs[name := s.jobs[name].(state := to)],
            built := if to == JobSucceeded then s.built + {s.jobs[name].buildId} else s.built)
  }

  /** A Job leaves by expiry or by hand; losing this generation's Job before its outcome is seen is noted. */
  function DropJob(cfg: Config, s: State, name: string): State {
    if name !in s.jobs then s
    else
      var unseen := s.jobs[name].createdIn == s.generation && !OutcomeRecorded(cfg, s);
      s.(jobs := s.jobs - {name},
         notes := if unseen then s.notes + [JobLost(s.generation)] else s.notes)
  }

  /** Steps that the state does not allow change nothing, so every sequence of steps is a run. */
  function Next(cfg: Config, s: State, step: Step): State {
    match step
    case Reconciles(i) => Reconcile(cfg, s, i)
    case EditSpec(spec) => s.(generation := s.generation + 1, spec := spec)
    case JobMoves(name, to) => MoveJob(s, name, to)
    case JobVanishes(name) => DropJob(cfg, s, name)
    case WorkloadDeleted => s.(workload := None)
  }

  function After(cfg: Config, s: State, steps: seq<Step>): State {
    if steps == [] then s
    else Next(cfg, After(cfg, s, steps[..|steps| - 1]), steps[|steps| - 1])
  }

  lemma AfterAppend(cfg: Config, s: State, steps: seq<Step>, step: Step)
    ensures After(cfg, s, steps + [step]) == Next(cfg, After(cfg, s, steps), step)
  {
    assert (steps + [step])[..|steps|] == steps;
  }

  lemma AfterThree(cfg: Config, s: State, a: Step, b: Step, c: Step)
    ensures After(cfg, s, [a, b, c]) == Next(cfg, Next(cfg, Next(cfg, s, a), b), c)
  {
    assert After(cfg, s, [a]) == Next(cfg, s, a) by {
      assert [a][..0] == [];
    }
    assert After(cfg, s, [a, b]) == Next(cfg, After(cfg, s, [a]), b) by {
      assert [a, b][..1] == [a];
    }
    assert After(cfg, s, [a, b, c]) == Next(cfg, After(cfg, s, [a, b]), c) by {
      assert [a, b, c][..2] == [a, b];
    }
  }

  lemma {:induction false} AfterConcat(cfg: Config, s: State, first: seq<Step>, rest: seq<Step>)
    ensures After(cfg, s, first + rest) == After(cfg, After(cfg, s, first), rest)
    decreases |rest|
  {
    if rest == [] {
      assert first + rest == first;
    } else {
      var k := |rest| - 1;
      AfterConcat(cfg, s, first, rest[..k]);
      assert (first + rest)[..|first + rest| - 1] == first + rest[..k];
    }
  }

  /** A run cut at its step k. */
  lemma AfterCut(cfg: Config, s: State, steps: seq<Step>, k: nat, m: nat)
    requires k < m <= |steps|
    ensures After(cfg, s, steps[..k + 1]) == Next(cfg, After(cfg, s, steps[..k]), steps[k])
    ensures After(cfg, s, steps[..m]) == After(cfg, After(cfg, s, steps[..k + 1]), steps[k + 1..m])
  {
    assert steps[..k + 1] == steps[..k] + [steps[k]];
    AfterAppend(cfg, s, steps[..k], steps[k]);
    assert steps[..m] == steps[..k + 1] + steps[k + 1..m];
    AfterConcat(cfg, s, steps[..k + 1], steps[k + 1..m]);
  }

  function Fresh(spec: Spec): State {
    State(1, spec, Status(Unset, "", 0, 0, "", NoBuild, 0, 0, None, []), map[], None, {}, [])
  }

  /** A spec with code to build and nothing that could hold a reconcile up. */
  predicate Buildable(spec: Spec) {
    spec.repoUrl != "" && !spec.suspended && spec.secretName == "" && !NeedsMigration(spec)
  }

  predicate CanCreateJobs(cfg: Config) {
    IsValidLabel(cfg.name) && |cfg.name| != 56 && |cfg.name| != 62
  }

  lemma CurrentBuildId(cfg: Config, spec: Spec)
    requires ValidConfig(cfg)
    ensures IsBuildId(ComputeBuildId(cfg, spec))
  {
  }

  /** Inputs under which nothing outside the deployment goes wrong and no pod is up yet. */
  const QUIET := Inputs(
    false, SecretFound, CreateAccepted, Applied, true, Health(0, 0, 0, Absent, Absent), UnknownFailure, true, Applied, 0)

  // ----- how a reconcile reaches the build stage -----

  /** The state in which the build stage starts, when it is reached. */
  function AtBuild(s: State, i: Inputs): State { CheckSecretGate(InitializeStatus(s), i.secret).state }

  predicate ReachesBuild(cfg: Config, s: State, i: Inputs) {
    && !NeedsMigration(s.spec)
    && !(GatesConsulted(s) && i.capacityFull)
    && CheckSecretGate(InitializeStatus(s), i.secret).Continue?
    && IsValidLabel(cfg.name)
    && !AlreadyFailed(s)
    && s.spec.repoUrl != ""
  }

  /** Equality on everything the build protocol reads and writes. */
  predicate SameBuild(s: State, t: State) {
    && s.spec == t.spec && s.jobs == t.jobs && s.built == t.built
    && s.generation == t.generation
    && s.status.buildId == t.status.buildId
    && s.status.buildStatus == t.status.buildStatus
    && s.status.lastBuiltGeneration == t.status.lastBuiltGeneration
  }

  lemma GatesKeepBuild(s: State, i: Inputs)
    ensures SameBuild(s, AtBuild(s, i))
    ensures AtBuild(s, i).notes == s.notes && AtBuild(s, i).workload == s.workload
    ensures AtBuild(s, i).status.failedRolloutGeneration == s.status.failedRolloutGeneration
    ensures AtBuild(s, i).status.lastReconciledGeneration == s.status.lastReconciledGeneration
    ensures IsTerminalFailure(s.status.phase) ==> IsTerminalFailure(AtBuild(s, i).status.phase)
    ensures CheckSecretGate(InitializeStatus(s), i.secret).Continue? ==>
              AlreadyFailed(AtBuild(s, i)) == AlreadyFailed(s)
  {
  }

  /** A reconcile is its gates and then the build and rollout, or it never touches the build. */
  lemma ReconcileSplits(cfg: Config, s: State, i: Inputs)
    ensures ReachesBuild(cfg, s, i) ==>
              Reconcile(cfg, s, i) == BuildAndRollOut(cfg, AtBuild(s, i), NeedsFullReconciliation(s), i)
    ensures !ReachesBuild(cfg, s, i) && !NeedsMigration(s.spec) ==> SameBuild(s, Reconcile(cfg, s, i))
    ensures !ReachesBuild(cfg, s, i) ==>
              && Reconcile(cfg, s, i).jobs == s.jobs
              && (Reconcile(cfg, s, i).workload == s.workload || Reconcile(cfg, s, i).workload == None)
              && Reconcile(cfg, s, i).status.failedRolloutGeneration == s.status.failedRolloutGeneration
              && OnlyTracks(s, Reconcile(cfg, s, i))
              && s.generation <= Reconcile(cfg, s, i).generation
              && (Reconcile(cfg, s, i).status.lastReconciledGeneration == s.status.lastReconciledGeneration ||
                  Reconcile(cfg, s, i).status.lastReconciledGeneration == Reconcile(cfg, s, i).generation)
  {
    GatesKeepBuild(s, i);
  }

  /** No Job was created or lost between s and t. */
  predicate OnlyTracks(s: State, t: State) {
    s.notes <= t.notes && forall k :: |s.notes| <= k < |t.notes| ==> t.notes[k].VersionTracked?
  }

  /** The remediation pause of a generation that has used up its failure mark. */
  predicate StuckPaused(s: State) {
    s.workload.Some? && s.workload.value.paused && s.status.failedRolloutGeneration == s.generation
  }

  /** What the rollout stage may do between s and t when it is given `buildId`. */
  predicate RollsOut(s: State, t: State, buildId: string) {
    && SameBuild(s, t)
    && OnlyTracks(s, t)
    && (t.workload.Some? ==>
          (t.workload.value.buildId == buildId ||
           (s.workload.Some? && t.workload.value.buildId == s.workload.value.buildId)))
    && (t.status.failedRolloutGeneration == s.status.failedRolloutGeneration ||
        t.status.failedRolloutGeneration == s.generation)
    && (t.status.lastReconciledGeneration == s.status.lastReconciledGeneration ||
        t.status.lastReconciledGeneration == s.generation)
    && (s.workload.Some? ==> t.workload.Some?)
    && (StuckPaused(s) ==> StuckPaused(t))
  }

  lemma ApplyRollsOut(s: State, buildId: string, result: ApplyResult)
    ensures RollsOut(s, ReconcileDeployment(s, buildId, result).state, buildId)
  {
  }

  lemma RemediationRollsOut(s: State, phase: Phase, buildId: string, i: Inputs)
    ensures RollsOut(s, RemediateFailedRollout(s, phase, buildId, i), buildId)
  {
    var marked := s.(status := s.status.(failedRolloutGeneration := s.generation, rolloutStartedAt := None));
    ApplyRollsOut(SetPhase(marked, Failed), buildId, i.scaleDown);
  }

  lemma ConclusionRollsOut(s: State, startedAt: Option<int>, phase: Phase, buildId: string, i: Inputs)
    ensures var tracked := s.(status := s.status.(rolloutStartedAt := startedAt));
            RollsOut(s, Conclude(s, tracked, phase, buildId, i), buildId)
  {
    RemediationRollsOut(s.(status := s.status.(rolloutStartedAt := startedAt)), phase, buildId, i);
  }

  lemma AssessmentRollsOut(cfg: Config, s: State, buildId: string, i: Inputs)
    ensures RollsOut(s, AssessAndFinalize(cfg, s, buildId, i), buildId)
  {
    var determined := DetermineDeploymentPhase(s, i.health);
    var tracked := TrackRolloutStart(s, determined, i.now);
    assert tracked == s.(status := s.status.(rolloutStartedAt := tracked.status.rolloutStartedAt));
    ConclusionRollsOut(s, tracked.status.rolloutStartedAt,
                       CheckRolloutTimeout(cfg, tracked, i.health, determined, i.now), buildId, i);
  }

  /** The rollout stage leaves the build alone, and deploys the ID it is given or nothing new. */
  lemma RollOutRollsOut(cfg: Config, s: State, buildId: string, full: bool, i: Inputs)
    ensures RollsOut(s, RollOut(cfg, s, buildId, full, i), buildId)
    ensures i.apply == Applied ==>
              RollOut(cfg, s, buildId, full, i).workload.Some? &&
              RollOut(cfg, s, buildId, full, i).workload.value.buildId == buildId
  {
    var applied := ReconcileDeployment(s, buildId, i.apply).state;
    ApplyRollsOut(s, buildId, i.apply);
    AssessmentRollsOut(cfg, TrackIf(full, cfg, applied, i.now), buildId, i);
  }

  predicate JobsAnswered(answer: JobAnswer) { answer != StaleJobError && answer != JobReadError }

  /** Nothing stands between the reconcile and the build stage, and a Job is due and can be looked up there. */
  predicate DueForBuild(cfg: Config, s: State, i: Inputs) {
    && ReachesBuild(cfg, s, i)
    && !SkipsBuild(s)
    && !BuildCached(cfg, s)
    && JobsAnswered(i.jobAnswer)
  }

  /** Superseding cancels exactly the in-flight Job of another build, never a succeeded one, and nothing else. */
  lemma SupersedeRemovesExactly(cfg: Config, s: State, newBuildId: string, n: string)
    requires n in s.jobs
    ensures var t := SupersedeStaleBuildJob(cfg, s, newBuildId);
            && t == s.(jobs := t.jobs) && t.jobs.Keys <= s.jobs.Keys && (n in t.jobs ==> t.jobs[n] == s.jobs[n])
            && (n !in t.jobs <==>
                  && n == JobName(cfg.name, s.status.buildId) && s.jobs[n].state != JobSucceeded
                  && s.status.buildId != "" && s.status.buildId != newBuildId
                  && (s.status.buildStatus == BuildPending || s.status.buildStatus == BuildRunning))
  {
  }

  /** A build stage whose first call fails changes nothing; one whose second fails has only superseded. */
  lemma FailedLookups(cfg: Config, s: State, i: Inputs)
    requires ReachesBuild(cfg, s, i) && !SkipsBuild(s) && !BuildCached(cfg, s)
    ensures i.jobAnswer == StaleJobError ==> Reconcile(cfg, s, i) == AtBuild(s, i)
    ensures i.jobAnswer == JobReadError ==>
              Reconcile(cfg, s, i) ==
              AtBuild(s, i).(jobs := SupersedeStaleBuildJob(cfg, s, ComputeBuildId(cfg, s.spec)).jobs)
  {
    ReconcileSplits(cfg, s, i);
    GatesKeepBuild(s, i);
  }

  /** With no Job under the current name, a due build whose Job is accepted gets one. */
  lemma DueBuildCreates(cfg: Config, s: State, i: Inputs)
    requires DueForBuild(cfg, s, i) && CurrentJobName(cfg, s) !in s.jobs
    requires i.jobAnswer == CreateAccepted && IsValidLabel(CurrentJobName(cfg, s))
    ensures var t := Reconcile(cfg, s, i);
            var id := ComputeBuildId(cfg, s.spec);
            && t.jobs == SupersedeStaleBuildJob(cfg, s, id).jobs[CurrentJobName(cfg, s) := Job(id, s.generation, JobActive)]
            && t.notes == s.notes + [JobCreated(s.generation, id)]
            && t.status.buildId == id && t.status.buildStatus == BuildPending && t.status.phase == Building
            && t.status.failedRolloutGeneration == s.status.failedRolloutGeneration
            && t.generation == s.generation && t.spec == s.spec && t.built == s.built && t.workload == s.workload
  {
    ReconcileSplits(cfg, s, i);
    GatesKeepBuild(s, i);
  }

  /** A due build is created and succeeds. */
  lemma BuildSucceeds(cfg: Config, s: State, i: Inputs) returns (steps: seq<Step>)
    requires DueForBuild(cfg, s, i) && s.jobs == map[]
    requires i.jobAnswer == CreateAccepted && IsValidLabel(CurrentJobName(cfg, s))
    ensures |steps| == 2
    ensures var t, id := After(cfg, s, steps), ComputeBuildId(cfg, s.spec);
            && t.jobs == map[CurrentJobName(cfg, s) := Job(id, s.generation, JobSucceeded)]
            && t.built == s.built + {id} && t.generation == s.generation && t.spec == s.spec && t.workload == s.workload
            && t.status.buildId == id && t.status.buildStatus == BuildPending && t.status.phase == Building
            && t.status.failedRolloutGeneration == s.status.failedRolloutGeneration
  {
    var create, succeed := Reconciles(i), JobMoves(CurrentJobName(cfg, s), JobSucceeded);
    DueBuildCreates(cfg, s, i);
    AfterAppend(cfg, s, [], create);
    AfterAppend(cfg, s, [create], succeed);
    assert [] + [create] == [create];
    steps := [create] + [succeed];
  }

  /** The Job that the build stage will look at, once a superseded one is out of the way, shows a failure. */
  predicate SeesFailure(cfg: Config, s: State, i: Inputs) {
    var jobs := SupersedeStaleBuildJob(cfg, s, ComputeBuildId(cfg, s.spec)).jobs;
    DueForBuild(cfg, s, i) && CurrentJobName(cfg, s) in jobs && jobs[CurrentJobName(cfg, s)].ShowsFailure()
  }

  lemma BuildSeesFailure(cfg: Config, s: State, answer: JobAnswer)
    requires !SkipsBuild(s) && !BuildCached(cfg, s) && JobsAnswered(answer)
    requires var jobs := SupersedeStaleBuildJob(cfg, s, ComputeBuildId(cfg, s.spec)).jobs;
             CurrentJobName(cfg, s) in jobs && jobs[CurrentJobName(cfg, s)].ShowsFailure()
    ensures var jobs := SupersedeStaleBuildJob(cfg, s, ComputeBuildId(cfg, s.spec)).jobs;
            ReconcileBuild(cfg, s, answer) == InProgress(
              if s.status.failedRolloutGeneration == s.generation
              then s.(jobs := jobs, status := s.status.(
                        buildId := ComputeBuildId(cfg, s.spec), buildStatus := BuildErrored, phase := BuildFailed))
              else s.(jobs := jobs - {CurrentJobName(cfg, s)},
                      status := s.status.(failedRolloutGeneration := s.generation)))
  {
  }

  /** A due build whose Job shows a failure: the first time in a generation it is deleted, then it is final. */
  lemma SeenFailure(cfg: Config, s: State, i: Inputs)
    requires SeesFailure(cfg, s, i)
    ensures var t := Reconcile(cfg, s, i);
            var jobs := SupersedeStaleBuildJob(cfg, s, ComputeBuildId(cfg, s.spec)).jobs;
            && t.generation == s.generation && t.spec == s.spec && t.built == s.built && t.notes == s.notes
            && t.workload == s.workload
            && t.status.failedRolloutGeneration == s.generation
            && if s.status.failedRolloutGeneration == s.generation
               then && t.jobs == jobs && t.status.phase == BuildFailed && t.status.buildStatus == BuildErrored
                    && t.status.buildId == ComputeBuildId(cfg, s.spec)
               else && t.jobs == jobs - {CurrentJobName(cfg, s)}
                    && t.status.phase == InitializeStatus(s).status.phase
                    && t.status.buildStatus == s.status.buildStatus
                    && t.status.buildId == s.status.buildId
  {
    ReconcileSplits(cfg, s, i);
    GatesKeepBuild(s, i);
    BuildSeesFailure(cfg, AtBuild(s, i), i.jobAnswer);
  }

  /** A due build takes over any succeeded Job found under its name, and deploys its own ID. */
  lemma SeenSuccess(cfg: Config, s: State, i: Inputs)
    requires DueForBuild(cfg, s, i) && i.apply == Applied
    requires var jobs := SupersedeStaleBuildJob(cfg, s, ComputeBuildId(cfg, s.spec)).jobs;
             CurrentJobName(cfg, s) in jobs && jobs[CurrentJobName(cfg, s)].state == JobSucceeded
    ensures var t := Reconcile(cfg, s, i);
            && t.workload.Some?
            && t.workload.value.buildId == ComputeBuildId(cfg, s.spec)
            && t.built == s.built
            && t.generation == s.generation
  {
    ReconcileSplits(cfg, s, i);
    GatesKeepBuild(s, i);
    var build := ReconcileBuild(cfg, AtBuild(s, i), i.jobAnswer);
    assert build.Ready?;
    RollOutRollsOut(cfg, build.state, build.buildId, NeedsFullReconciliation(s), i);
  }
}
