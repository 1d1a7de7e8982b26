/**
 * The reconciler as the operator runs it: methods that assign status fields and create, delete and patch
 * cluster objects one after the other. Each is proved to do what its function in Operator says, so what is
 * proved about runs of those functions holds of the methods.
 */
module Controller {
  import opened Options
  import opened Labels
  import opened Releases
  import opened Operator
  import opened Runs

  class Reconciler {
    const cfg: Config
    var generation: nat
    var spec: Spec
    var status: Status
    var jobs: map<string, Job>
    var workload: Option<Workload>
    ghost var built: set<string>
    ghost var notes: seq<Note>

    ghost function View(): State
      reads this
    {
      State(generation, spec, status, jobs, workload, built, notes)
    }

    constructor (cfg: Config, spec: Spec)
      ensures this.cfg == cfg
      ensures View() == Fresh(spec)
    {
      this.cfg := cfg;
      generation, this.spec := 1, spec;
      status := Status(Unset, "", 0, 0, "", NoBuild, 0, 0, None, []);
      jobs, workload, built, notes := map[], None, {}, [];
    }

    method MigrateName() returns (requeue: bool)
      modifies this
      ensures requeue == NeedsMigration(old(spec))
      ensures View() == if requeue then MigrateDisplayName(old(View())) else old(View())
    {
      if spec.legacyName == "" || spec.displayName != "" {
        return false;
      }
      spec := spec.(displayName := spec.legacyName);
      spec := spec.(legacyName := "");
      generation := generation + 1;
      status := status.(lastReconciledGeneration := generation);
      return true;
    }

    method Initialize(full: bool)
      requires full == NeedsFullReconciliation(View())
      modifies this
      ensures View() == InitializeStatus(old(View()))
    {
      if status.phase == Unset || full {
        var isTerminal := || IsTerminalFailure(status.phase) || status.phase == Building
                          || status.phase == Suspended || status.phase == AwaitingCode;
        if !isTerminal {
          status := status.(phase := Pending);
        }
      }
    }

    method CheckSecret(secret: SecretRead) returns (stop: bool)
      modifies this
      ensures var gate := CheckSecretGate(old(View()), secret);
              View() == gate.state && stop == gate.Stop?
    {
      if spec.secretName == "" {
        return false;
      }
      match secret
      case SecretReadError => return true;
      case SecretMissing =>
        if status.secretCheckRetries < 3 {
          status := status.(secretCheckRetries := status.secretCheckRetries + 1);
          return true;
        }
        if status.phase != RolloutFailed {
          status := status.(phase := RolloutFailed);
        }
        return true;
      case SecretFound =>
        if status.secretCheckRetries > 0 {
          status := status.(secretCheckRetries := 0);
        }
        return false;
    }

    method TrackVersion(now: int)
      modifies this
      ensures View() == UpdateVersionTracking(cfg, old(View()), now)
    {
      var release := Release(spec.gitSha, ContainerImageTag(cfg, spec), now);
      var history := status.releaseHistory;
      if spec.gitSha != "" {
        var lastSha := "";
        if |history| > 0 {
          lastSha := history[|history| - 1].gitSha;
        }
        if lastSha != spec.gitSha {
          status := status.(releaseHistory := history + [release]);
          if |status.releaseHistory| > 20 {
            status := status.(releaseHistory := status.releaseHistory[1..]);
          }
        }
      }
      status := status.(schemaVersion := SCHEMA_VERSION);
      status := status.(lastReconciledGeneration := generation);
      notes := notes + [VersionTracked(release)];
    }

    method SupersedeStale(newBuildId: string)
      modifies this
      ensures View() == SupersedeStaleBuildJob(cfg, old(View()), newBuildId)
    {
      if status.buildId == "" || status.buildId == newBuildId {
        return;
      }
      if status.buildStatus != BuildPending && status.buildStatus != BuildRunning {
        return;
      }
      var staleName := JobName(cfg.name, status.buildId);
      if staleName !in jobs {
        return;
      }
      if jobs[staleName].state == JobSucceeded {
        return;
      }
      jobs := jobs - {staleName};
    }

    method CreateJob(id: string, answer: JobAnswer)
      modifies this
      ensures View() == CreateBuildJob(cfg, old(View()), id, answer).state
    {
      var name := JobName(cfg.name, id);
      if answer != CreateAccepted || !IsValidLabel(name) {
        return;
      }
      jobs := jobs[name := Job(id, generation, JobActive)];
      notes := notes + [JobCreated(generation, id)];
      status := status.(buildId := id, buildStatus := BuildPending);
      status := status.(phase := Building);
    }

    method ObserveJob(id: string) returns (buildId: string, stop: bool)
      requires JobName(cfg.name, id) in jobs
      modifies this
      ensures var result := ObserveBuildJob(cfg, old(View()), id, old(jobs[JobName(cfg.name, id)]));
              && View() == result.state
              && stop == result.InProgress?
              && buildId == if result.Ready? then result.buildId else ""
    {
      var name := JobName(cfg.name, id);
      if jobs[name].state == JobSucceeded {
        status := status.(buildId := id, buildStatus := BuildSucceeded);
        status := status.(lastBuiltGeneration := spec.buildGeneration);
        return id, false;
      }
      if jobs[name].ShowsFailure() {
        if status.failedRolloutGeneration != generation {
          jobs := jobs - {name};
          status := status.(failedRolloutGeneration := generation);
          return "", true;
        }
        status := status.(buildId := id, buildStatus := BuildErrored);
        status := status.(phase := BuildFailed, failedRolloutGeneration := generation);
        return "", true;
      }
      if status.buildStatus != BuildRunning {
        status := status.(buildStatus := BuildRunning, phase := Building);
      }
      return "", true;
    }

    method Build(answer: JobAnswer) returns (buildId: string, stop: bool)
      modifies this
      ensures var result := ReconcileBuild(cfg, old(View()), answer);
              && View() == result.state
              && stop == result.InProgress?
              && buildId == if result.Ready? then result.buildId else ""
    {
      if spec.repoUrl == "" {
        return "", false;
      }
      if spec.suspended && spec.buildGeneration <= status.lastBuiltGeneration {
        return "", false;
      }
      var id := ComputeBuildId(cfg, spec);
      if status.buildId == id && status.buildStatus == BuildSucceeded {
        return id, false;
      }
      if answer == StaleJobError {
        return "", true;
      }
      SupersedeStale(id);
      if answer == JobReadError {
        return "", true;
      }
      var name := JobName(cfg.name, id);
      if name !in jobs {
        CreateJob(id, answer);
        return "", true;
      }
      buildId, stop := ObserveJob(id);
    }

    method ApplyDeployment(buildId: string, result: ApplyResult) returns (refused: bool)
      modifies this
      ensures var step := ReconcileDeployment(old(View()), buildId, result);
              View() == step.state && refused == step.refused
    {
      if result == RefusedBeforeUnpause {
        return true;
      }
      if result != AppliedUnread && workload.Some? && workload.value.paused
         && status.failedRolloutGeneration > 0 && generation > status.failedRolloutGeneration {
        workload := Some(workload.value.(paused := false));
      }
      if result == RefusedAfterUnpause {
        return true;
      }
      var replicas := 1;
      if spec.suspended || (status.failedRolloutGeneration == generation && status.phase == Failed) {
        replicas := 0;
      }
      var paused := workload.Some? && workload.value.paused;
      workload := Some(Workload(buildId, replicas, paused));
      return result == RefusedAfterApply;
    }

    method Remediate(phase: Phase, buildId: string, i: Inputs)
      requires IsFailedPhase(phase)
      modifies this
      ensures View() == RemediateFailedRollout(old(View()), phase, buildId, i)
    {
      status := status.(failedRolloutGeneration := generation);
      status := status.(rolloutStartedAt := None);
      if phase == RolloutFailed {
        if workload.Some? && i.pauseAccepted {
          workload := Some(workload.value.(paused := true));
        }
      } else {
        status := status.(phase := Failed);
        var refused := ApplyDeployment(buildId, i.scaleDown);
      }
    }

    /** The assessed phase, unless the Deployment cannot be read; the rollout timing is updated on the way. */
    method AssessHealth(i: Inputs) returns (phase: Phase, unread: bool)
      modifies this
      ensures unread <==> !spec.suspended && !i.deploymentRead
      ensures unread ==> View() == old(View())
      ensures !unread ==> var determined := DetermineDeploymentPhase(old(View()), i.health);
              && View() == TrackRolloutStart(old(View()), determined, i.now)
              && phase == CheckRolloutTimeout(cfg, View(), i.health, determined, i.now)
    {
      unread := !spec.suspended && !i.deploymentRead;
      if unread {
        return Unset, true;
      }
      phase := DetermineDeploymentPhase(
        State(generation, spec, status, jobs, workload, {}, []), i.health);
      if phase == Pending || phase == RollingOut {
        if status.rolloutStartedAt.None? {
          status := status.(rolloutStartedAt := Some(i.now));
        }
        var remaining := cfg.rolloutTimeout - (i.now - status.rolloutStartedAt.value);
        if remaining <= 0 {
          phase := RolloutFailed;
          if workload.Some? && i.health.availableReplicas == 0 {
            phase := Failed;
          }
        }
      } else if status.rolloutStartedAt.Some? {
        status := status.(rolloutStartedAt := None);
      }
    }

    method FinishRollout(buildId: string, i: Inputs)
      modifies this
      ensures View() == AssessAndFinalize(cfg, old(View()), buildId, i)
    {
      var saved := status;
      var phase, unread := AssessHealth(i);
      if unread {
        return;
      }
      if IsFailedPhase(phase) && status.failedRolloutGeneration != generation {
        if i.podFailure == InfraFailure {
          status := saved;  // the assessed copy is dropped without a write
          return;
        }
        Remediate(phase, buildId, i);
      }
      if status.phase != phase {
        status := status.(phase := phase);
      }
    }

    method BuildAndDeploy(full: bool, i: Inputs)
      modifies this
      ensures View() == BuildAndRollOut(cfg, old(View()), full, i)
    {
      var buildId, stop := Build(i.jobAnswer);
      if stop {
        return;
      }
      var refused := ApplyDeployment(buildId, i.apply);
      if refused {
        status := status.(phase := Failed);
        return;
      }
      if full {
        TrackVersion(i.now);
      }
      FinishRollout(buildId, i);
    }

    method Run(i: Inputs)
      modifies this
      ensures View() == Reconcile(cfg, old(View()), i)
    {
      var requeue := MigrateName();
      if requeue {
        return;
      }
      var full := || status.schemaVersion != SCHEMA_VERSION
                  || status.lastReconciledGeneration != generation || status.lastReconciledGeneration == 0;
      if full && !spec.suspended && status.phase != AwaitingCode && i.capacityFull {
        return;
      }
      Initialize(full);
      var stop := CheckSecret(i.secret);
      if stop {
        return;
      }
      var validName := IsValidDNS1035Label(cfg.name);
      if !validName {
        workload := None;
        status := status.(phase := Failed);
        return;
      }
      if IsTerminalFailure(status.phase) && status.failedRolloutGeneration == generation {
        if full {
          TrackVersion(i.now);
        }
        return;
      }
      if spec.repoUrl == "" {
        if full {
          TrackVersion(i.now);
        }
        status := status.(phase := AwaitingCode);
        return;
      }
      BuildAndDeploy(full, i);
    }
  }
}
