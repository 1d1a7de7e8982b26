/**
 * One LlamaDeployment as the operator sees it: the resource (generation, spec, status), the cluster
 * objects it owns (build Jobs, the runtime Deployment), and one reconcile as a function on that state.
 *
 * Everything a reconcile reads from outside the resource and its Jobs is in `Inputs`. A reconcile is one
 * atomic step: reads are fresh and status writes succeed.
 */
module Operator {
  import opened Options
  import opened Labels
  import opened Releases

  const SCHEMA_VERSION := "7"

  datatype Phase =
    | Unset | Pending | Running | Failed | RollingOut | RolloutFailed
    | Suspended | Building | BuildFailed | AwaitingCode

  datatype BuildStatus = NoBuild | BuildPending | BuildRunning | BuildSucceeded | BuildErrored

  /**
   * A Job allows one more pod after a failed one (backoff limit 1), and its failure counter counts pods:
   * a `JobRetrying` Job has a failed pod and is still running.
   */
  datatype JobState = JobActive | JobRetrying | JobSucceeded | JobFailed

  datatype Job = Job(buildId: string, createdIn: nat, state: JobState) {
    predicate Unfinished() { state == JobActive || state == JobRetrying }

    /** What the operator sees as a failure: a positive failure counter and no success. */
    predicate ShowsFailure() { state == JobRetrying || state == JobFailed }
  }

  datatype Spec = Spec(
    legacyName: string,
    displayName: string,
    repoUrl: string,
    gitSha: string,
    imageTag: string,
    secretName: string,
    suspended: bool,
    buildGeneration: int)

  datatype Status = Status(
    phase: Phase,
    schemaVersion: string,
    lastReconciledGeneration: nat,
    failedRolloutGeneration: nat,
    buildId: string,
    buildStatus: BuildStatus,
    lastBuiltGeneration: int,
    secretCheckRetries: nat,
    rolloutStartedAt: Option<int>,
    releaseHistory: seq<Release>)

  /** The runtime Deployment: the artifact its pods download ("" for none), replicas, and the pause flag. */
  datatype Workload = Workload(buildId: string, replicas: nat, paused: bool)

  /** What has happened to the deployment that the rest of the state does not show. */
  datatype Note =
    | JobCreated(generation: nat, buildId: string)
    | JobLost(generation: nat)
    | VersionTracked(release: Release)

  /** `built` holds the IDs whose Job has succeeded so far: the artifacts that exist. */
  datatype State = State(
    generation: nat,
    spec: Spec,
    status: Status,
    jobs: map<string, Job>,
    workload: Option<Workload>,
    built: set<string>,
    notes: seq<Note>)

  datatype Config = Config(name: string, sha256: string -> string, rolloutTimeout: int, defaultImageTag: string)

  datatype SecretRead = SecretFound | SecretMissing | SecretReadError

  /**
   * What the cluster answers to the build stage. A `StaleJobError` ends it before a superseded Job is gone, a
   * `JobReadError` after (a retry's failed deletion also ends that way); the others answer a Job's creation.
   */
  datatype JobAnswer = StaleJobError | JobReadError | CreateAccepted | CreateConflict | CreateError

  /** After `AppliedUnread` the apply went through, but the Deployment could not be read to unpause it first. */
  datatype ApplyResult = Applied | AppliedUnread | RefusedBeforeUnpause | RefusedAfterUnpause | RefusedAfterApply
  datatype Condition = Absent | IsTrue | IsFalse | IsUnknown
  datatype PodFailure = UnknownFailure | AppFailure | InfraFailure

  datatype Health = Health(
    availableReplicas: nat, readyReplicas: nat, replicas: nat, available: Condition, progressing: Condition)

  datatype Inputs = Inputs(
    capacityFull: bool,
    secret: SecretRead,
    jobAnswer: JobAnswer,
    apply: ApplyResult,
    deploymentRead: bool,
    health: Health,
    podFailure: PodFailure,
    pauseAccepted: bool,
    scaleDown: ApplyResult,
    now: int)

  // ----- phase predicates -----

  predicate IsTerminalFailure(phase: Phase) {
    phase == RolloutFailed || phase == Failed || phase == BuildFailed
  }

  predicate IsFailedPhase(phase: Phase) { phase == RolloutFailed || phase == Failed }

  predicate IsActivePhase(phase: Phase) {
    && phase != Suspended && phase != Failed && phase != Building
    && phase != BuildFailed && phase != AwaitingCode && phase != Unset
  }

  predicate IsRollingPhase(phase: Phase) { phase == Pending || phase == RollingOut || phase == Building }

  predicate NeedsFullReconciliation(s: State) {
    || s.status.schemaVersion != SCHEMA_VERSION
    || s.status.lastReconciledGeneration != s.generation
    || s.status.lastReconciledGeneration == 0
  }

  /** The mark that ends all work on a generation. */
  predicate AlreadyFailed(s: State) {
    IsTerminalFailure(s.status.phase) && s.status.failedRolloutGeneration == s.generation
  }

  // ----- build identity -----

  function Decimal(n: nat): string {
    if n < 10 then [('0' as int + n) as char]
    else Decimal(n / 10) + [('0' as int + n % 10) as char]
  }

  function BuildContent(name: string, gitSha: string, buildGeneration: int): string {
    name + "|" + gitSha + if buildGeneration > 0 then "|bg:" + Decimal(buildGeneration) else ""
  }

  function ComputeBuildId(cfg: Config, spec: Spec): string {
    var hash := cfg.sha256(BuildContent(cfg.name, spec.gitSha, spec.buildGeneration));
    if |hash| <= BUILD_ID_LENGTH then hash else hash[..BUILD_ID_LENGTH]
  }

  function CurrentJobName(cfg: Config, s: State): string {
    JobName(cfg.name, ComputeBuildId(cfg, s.spec))
  }

  // ----- the stages of a reconcile -----

  function SetPhase(s: State, phase: Phase): State {
    s.(status := s.status.(phase := phase))
  }

  predicate NeedsMigration(spec: Spec) { spec.legacyName != "" && spec.displayName == "" }

  /** Moves spec.name to spec.displayName; the write bumps the generation, which is marked as reconciled. */
  function MigrateDisplayName(s: State): State {
    s.(generation := s.generation + 1,
       spec := s.spec.(displayName := s.spec.legacyName, legacyName := ""),
       status := s.status.(lastReconciledGeneration := s.generation + 1))
  }

  predicate GatesConsulted(s: State) {
    NeedsFullReconciliation(s) && !s.spec.suspended && s.status.phase != AwaitingCode
  }

  function InitializeStatus(s: State): State {
    var keeps := || IsTerminalFailure(s.status.phase) || s.status.phase == Building
                 || s.status.phase == Suspended || s.status.phase == AwaitingCode;
    if (s.status.phase == Unset || NeedsFullReconciliation(s)) && !keeps then SetPhase(s, Pending) else s
  }

  datatype Gate = Stop(state: State) | Continue(state: State)

  function CheckSecretGate(s: State, secret: SecretRead): Gate {
    if s.spec.secretName == "" then Continue(s)
    else match secret
      case SecretReadError => Stop(s)
      case SecretFound => Continue(s.(status := s.status.(secretCheckRetries := 0)))
      case SecretMissing =>
        if s.status.secretCheckRetries < 3
        then Stop(s.(status := s.status.(secretCheckRetries := s.status.secretCheckRetries + 1)))
        else Stop(SetPhase(s, RolloutFailed))
  }

  function HandleInvalidName(s: State): State {
    SetPhase(s.(workload := None), Failed)
  }

  function ContainerImageTag(cfg: Config, spec: Spec): string {
    var prefix := "appserver-";
    if spec.imageTag == "" then cfg.defaultImageTag
    else if prefix <= spec.imageTag then spec.imageTag[|prefix|..]
    else spec.imageTag
  }

  function UpdateVersionTracking(cfg: Config, s: State, now: int): State {
    var release := Release(s.spec.gitSha, ContainerImageTag(cfg, s.spec), now);
    s.(status := s.status.(
         releaseHistory := Record(s.status.releaseHistory, release),
         schemaVersion := SCHEMA_VERSION,
         lastReconciledGeneration := s.generation),
       notes := s.notes + [VersionTracked(release)])
  }

  function TrackIf(full: bool, cfg: Config, s: State, now: int): State {
    if full then UpdateVersionTracking(cfg, s, now) else s
  }

  /** Cancels the Job of a superseded build unless it has succeeded. */
  function SupersedeStaleBuildJob(cfg: Config, s: State, newBuildId: string): State {
    var stale := JobName(cfg.name, s.status.buildId);
    if s.status.buildId == "" || s.status.buildId == newBuildId then s
    else if s.status.buildStatus != BuildPending && s.status.buildStatus != BuildRunning then s
    else if stale !in s.jobs || s.jobs[stale].state == JobSucceeded then s
    else s.(jobs := s.jobs - {stale})
  }

  datatype BuildResult = Ready(state: State, buildId: string) | InProgress(state: State)

  /** A Job is accepted by the cluster only under a well-formed name. */
  function CreateBuildJob(cfg: Config, s: State, buildId: string, answer: JobAnswer): BuildResult {
    var name := JobName(cfg.name, buildId);
    if answer != CreateAccepted || !IsValidLabel(name) then InProgress(s)
    else InProgress(s.(
        jobs := s.jobs[name := Job(buildId, s.generation, JobActive)],
        notes := s.notes + [JobCreated(s.generation, buildId)],
        status := s.status.(buildId := buildId, buildStatus := BuildPending, phase := Building)))
  }

  function ObserveBuildJob(cfg: Config, s: State, buildId: string, job: Job): BuildResult {
    match job.state
    case JobSucceeded =>
      Ready(s.(status := s.status.(
                 buildId := buildId, buildStatus := BuildSucceeded,
                 lastBuiltGeneration := s.spec.buildGeneration)),
            buildId)
    case JobActive =>
      InProgress(if s.status.buildStatus == BuildRunning then s
                 else s.(status := s.status.(buildStatus := BuildRunning, phase := Building)))
    case _ =>
      if s.status.failedRolloutGeneration != s.generation then
        InProgress(s.(jobs := s.jobs - {JobName(cfg.name, buildId)},
                      status := s.status.(failedRolloutGeneration := s.generation)))
      else
        InProgress(s.(status := s.status.(
                        buildId := buildId, buildStatus := BuildErrored, phase := BuildFailed,
                        failedRolloutGeneration := s.generation)))
  }

  predicate SkipsBuild(s: State) {
    || s.spec.repoUrl == ""
    || (s.spec.suspended && s.spec.buildGeneration <= s.status.lastBuiltGeneration)
  }

  predicate BuildCached(cfg: Config, s: State) {
    s.status.buildId == ComputeBuildId(cfg, s.spec) && s.status.buildStatus == BuildSucceeded
  }

  function ReconcileBuild(cfg: Config, s: State, answer: JobAnswer): BuildResult {
    var buildId := ComputeBuildId(cfg, s.spec);
    if SkipsBuild(s) then Ready(s, "")
    else if BuildCached(cfg, s) then Ready(s, buildId)
    else if answer == StaleJobError then InProgress(s)
    else
      var t := SupersedeStaleBuildJob(cfg, s, buildId);
      var name := JobName(cfg.name, buildId);
      if answer == JobReadError then InProgress(t)
      else if name !in t.jobs then CreateBuildJob(cfg, t, buildId, answer)
      else ObserveBuildJob(cfg, t, buildId, t.jobs[name])
  }

  predicate Unpauses(s: State) {
    0 < s.status.failedRolloutGeneration < s.generation
  }

  function Replicas(s: State): nat {
    if s.spec.suspended || (s.status.failedRolloutGeneration == s.generation && s.status.phase == Failed)
    then 0 else 1
  }

  datatype ApplyStep = ApplyStep(state: State, refused: bool)

  /** Unpause if the generation has moved past the failed one, then apply the desired Deployment. */
  function ReconcileDeployment(s: State, buildId: string, result: ApplyResult): ApplyStep {
    if result == RefusedBeforeUnpause then ApplyStep(s, true)
    else
      var paused := s.workload.Some? && s.workload.value.paused && (!Unpauses(s) || result == AppliedUnread);
      var unpaused := if s.workload.Some? then Some(s.workload.value.(paused := paused)) else None;
      if result == RefusedAfterUnpause then ApplyStep(s.(workload := unpaused), true)
      else ApplyStep(s.(workload := Some(Workload(buildId, Replicas(s), paused))), result == RefusedAfterApply)
  }

  function DetermineDeploymentPhase(s: State, h: Health): Phase {
    if s.spec.suspended then Suspended
    else if s.workload.None? then Pending
    else
      var desired := s.workload.value.replicas;
      if h.availableReplicas == 0 then
        if h.progressing == IsFalse then Failed else Pending
      else if h.progressing == IsFalse then RolloutFailed
      else if h.available == IsTrue && h.progressing == IsTrue && h.readyReplicas == desired && h.replicas == desired
      then Running
      else if h.progressing == IsTrue && h.replicas > desired then RollingOut
      else Pending
  }

  function TrackRolloutStart(s: State, phase: Phase, now: int): State {
    if phase == Pending || phase == RollingOut then
      if s.status.rolloutStartedAt.None? then s.(status := s.status.(rolloutStartedAt := Some(now))) else s
    else s.(status := s.status.(rolloutStartedAt := None))
  }

  function CheckRolloutTimeout(cfg: Config, s: State, h: Health, phase: Phase, now: int): Phase {
    if phase != Pending && phase != RollingOut then phase
    else if s.status.rolloutStartedAt.None? || cfg.rolloutTimeout - (now - s.status.rolloutStartedAt.value) > 0
    then phase
    else if s.workload.Some? && h.availableReplicas == 0 then Failed
    else RolloutFailed
  }

  /** Records the failed generation and takes the failing pods down: by a pause, or by zero replicas. */
  function RemediateFailedRollout(s: State, phase: Phase, buildId: string, i: Inputs): State {
    var marked := s.(status := s.status.(failedRolloutGeneration := s.generation, rolloutStartedAt := None));
    if phase == RolloutFailed then
      if marked.workload.Some? && i.pauseAccepted
      then marked.(workload := Some(marked.workload.value.(paused := true)))
      else marked
    else ReconcileDeployment(SetPhase(marked, Failed), buildId, i.scaleDown).state
  }

  /**
   * `tracked` is s with its rollout timing updated in memory. An infrastructure failure ends the reconcile
   * before any of that is written.
   */
  function Conclude(s: State, tracked: State, phase: Phase, buildId: string, i: Inputs): State {
    if IsFailedPhase(phase) && tracked.status.failedRolloutGeneration != tracked.generation then
      if i.podFailure == InfraFailure then s
      else SetPhase(RemediateFailedRollout(tracked, phase, buildId, i), phase)
    else SetPhase(tracked, phase)
  }

  function AssessAndFinalize(cfg: Config, s: State, buildId: string, i: Inputs): State {
    var determined := DetermineDeploymentPhase(s, i.health);
    var tracked := TrackRolloutStart(s, determined, i.now);
    if !s.spec.suspended && !i.deploymentRead then s
    else Conclude(s, tracked, CheckRolloutTimeout(cfg, tracked, i.health, determined, i.now), buildId, i)
  }

  function RollOut(cfg: Config, s: State, buildId: string, full: bool, i: Inputs): State {
    var applied := ReconcileDeployment(s, buildId, i.apply);
    if applied.refused then SetPhase(applied.state, Failed)
    else AssessAndFinalize(cfg, TrackIf(full, cfg, applied.state, i.now), buildId, i)
  }

  function BuildAndRollOut(cfg: Config, s: State, full: bool, i: Inputs): State {
    var build := ReconcileBuild(cfg, s, i.jobAnswer);
    match build
    case InProgress(t) => t
    case Ready(t, buildId) => RollOut(cfg, t, buildId, full, i)
  }

  function AfterGates(cfg: Config, s: State, full: bool, i: Inputs): State {
    if !IsValidLabel(cfg.name) then HandleInvalidName(s)
    else if AlreadyFailed(s) then TrackIf(full, cfg, s, i.now)
    else if s.spec.repoUrl == "" then SetPhase(TrackIf(full, cfg, s, i.now), AwaitingCode)
    else BuildAndRollOut(cfg, s, full, i)
  }

  function Reconcile(cfg: Config, s: State, i: Inputs): State {
    if NeedsMigration(s.spec) then MigrateDisplayName(s)
    else if GatesConsulted(s) && i.capacityFull then s
    else
      match CheckSecretGate(InitializeStatus(s), i.secret)
      case Stop(t) => t
      case Continue(t) => AfterGates(cfg, t, NeedsFullReconciliation(s), i)
  }
}
