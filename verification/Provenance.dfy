/** Which builds reach the runtime Deployment: only ones whose own Job succeeded, under an exact condition. */
module Provenance {
  import opened Labels
  import opened Operator
  import opened Runs

  /** The artifact that the runtime pods download, if any, was produced by a Job for exactly that ID. */
  predicate DeploysOnlyBuilt(s: State) {
    s.workload.Some? && s.workload.value.buildId != "" ==> s.workload.value.buildId in s.built
  }

  /** A build reported as succeeded names an artifact that exists. */
  predicate ReportsOnlyBuilt(s: State) {
    s.status.buildStatus == BuildSucceeded ==> s.status.buildId in s.built
  }

  /** No two builds of this deployment share a Job name. */
  ghost predicate NamesDistinguish(cfg: Config) {
    forall a: Spec, b: Spec ::
      JobName(cfg.name, ComputeBuildId(cfg, a)) == JobName(cfg.name, ComputeBuildId(cfg, b)) ==>
      ComputeBuildId(cfg, a) == ComputeBuildId(cfg, b)
  }

  ghost predicate IsBuildOf(cfg: Config, id: string) {
    exists spec: Spec :: id == ComputeBuildId(cfg, spec)
  }

  ghost predicate JobsAreOurs(cfg: Config, s: State) {
    forall n :: n in s.jobs ==>
      && n == JobName(cfg.name, s.jobs[n].buildId)
      && IsBuildOf(cfg, s.jobs[n].buildId)
      && (s.jobs[n].state == JobSucceeded ==> s.jobs[n].buildId in s.built)
  }

  ghost predicate Invariant(cfg: Config, s: State) {
    DeploysOnlyBuilt(s) && ReportsOnlyBuilt(s) && JobsAreOurs(cfg, s)
  }

  /** A Job found under the name of a build is that build's Job. */
  lemma NameIdentifiesJob(cfg: Config, s: State, spec: Spec)
    requires NamesDistinguish(cfg) && JobsAreOurs(cfg, s)
    ensures var name := JobName(cfg.name, ComputeBuildId(cfg, spec));
            name in s.jobs ==> s.jobs[name].buildId == ComputeBuildId(cfg, spec)
  {
    var name := JobName(cfg.name, ComputeBuildId(cfg, spec));
    if name in s.jobs {
      assert IsBuildOf(cfg, s.jobs[name].buildId);
      var other: Spec :| s.jobs[name].buildId == ComputeBuildId(cfg, other);
    }
  }

  lemma CreateKeepsInvariant(cfg: Config, s: State, answer: JobAnswer)
    requires Invariant(cfg, s)
    ensures Invariant(cfg, CreateBuildJob(cfg, s, ComputeBuildId(cfg, s.spec), answer).state)
  {
    assert IsBuildOf(cfg, ComputeBuildId(cfg, s.spec));
  }

  lemma ObserveKeepsInvariant(cfg: Config, s: State)
    requires Invariant(cfg, s) && CurrentJobName(cfg, s) in s.jobs
    requires s.jobs[CurrentJobName(cfg, s)].buildId == ComputeBuildId(cfg, s.spec)
    ensures var build := ObserveBuildJob(cfg, s, ComputeBuildId(cfg, s.spec), s.jobs[CurrentJobName(cfg, s)]);
            Invariant(cfg, build.state) && (build.Ready? ==> build.buildId in build.state.built)
  {
  }

  lemma SupersedeKeepsInvariant(cfg: Config, s: State, newBuildId: string)
    requires Invariant(cfg, s)
    ensures var t := SupersedeStaleBuildJob(cfg, s, newBuildId);
            Invariant(cfg, t) && t == s.(jobs := t.jobs) && t.jobs.Keys <= s.jobs.Keys
  {
  }

  lemma BuildKeepsInvariant(cfg: Config, s: State, answer: JobAnswer)
    requires NamesDistinguish(cfg) && Invariant(cfg, s)
    ensures var build := ReconcileBuild(cfg, s, answer);
            && Invariant(cfg, build.state)
            && (build.Ready? ==> build.buildId == "" || build.buildId in build.state.built)
  {
    if !SkipsBuild(s) && !BuildCached(cfg, s) && answer != StaleJobError {
      var t := SupersedeStaleBuildJob(cfg, s, ComputeBuildId(cfg, s.spec));
      SupersedeKeepsInvariant(cfg, s, ComputeBuildId(cfg, s.spec));
      if answer == JobReadError {
      } else if CurrentJobName(cfg, t) in t.jobs {
        NameIdentifiesJob(cfg, t, s.spec);
        ObserveKeepsInvariant(cfg, t);
      } else {
        CreateKeepsInvariant(cfg, t, answer);
      }
    }
  }

  lemma StepKeepsInvariant(cfg: Config, s: State, step: Step)
    requires NamesDistinguish(cfg) && Invariant(cfg, s)
    ensures Invariant(cfg, Next(cfg, s, step))
  {
    if step.Reconciles? {
      var i := step.inputs;
      ReconcileSplits(cfg, s, i);
      if ReachesBuild(cfg, s, i) {
        GatesKeepBuild(s, i);
        BuildKeepsInvariant(cfg, AtBuild(s, i), i.jobAnswer);
        var build := ReconcileBuild(cfg, AtBuild(s, i), i.jobAnswer);
        if build.Ready? {
          RollOutRollsOut(cfg, build.state, build.buildId, NeedsFullReconciliation(s), i);
        }
      } else if NeedsMigration(s.spec) {
        assert Reconcile(cfg, s, i) == MigrateDisplayName(s);
      }
    }
  }

  /** A name that can hold no Job: nothing is ever built, so nothing built is ever deployed. */
  predicate NothingBuilt(s: State) {
    s.jobs == map[] && s.status.buildStatus != BuildSucceeded && (s.workload.Some? ==> s.workload.value.buildId == "")
  }

  lemma StepBuildsNothing(cfg: Config, s: State, step: Step)
    requires ValidConfig(cfg) && !CanCreateJobs(cfg) && NothingBuilt(s)
    ensures NothingBuilt(Next(cfg, s, step))
  {
    if step.Reconciles? {
      var i := step.inputs;
      ReconcileSplits(cfg, s, i);
      if ReachesBuild(cfg, s, i) {
        GatesKeepBuild(s, i);
        CurrentBuildId(cfg, s.spec);
        JobNameIsLabel(cfg.name, ComputeBuildId(cfg, s.spec));
        var build := ReconcileBuild(cfg, AtBuild(s, i), i.jobAnswer);
        assert NothingBuilt(build.state) && (build.Ready? ==> build.buildId == "");
        if build.Ready? {
          RollOutRollsOut(cfg, build.state, build.buildId, NeedsFullReconciliation(s), i);
        }
      }
    }
  }

  lemma {:induction false} RunKeeps(cfg: Config, spec: Spec, steps: seq<Step>)
    requires ValidConfig(cfg) && (NamesDistinguish(cfg) || !CanCreateJobs(cfg))
    ensures DeploysOnlyBuilt(After(cfg, Fresh(spec), steps))
    ensures NamesDistinguish(cfg) ==> Invariant(cfg, After(cfg, Fresh(spec), steps))
    ensures !CanCreateJobs(cfg) ==> NothingBuilt(After(cfg, Fresh(spec), steps))
  {
    if steps != [] {
      var before, step := steps[..|steps| - 1], steps[|steps| - 1];
      RunKeeps(cfg, spec, before);
      if NamesDistinguish(cfg) {
        StepKeepsInvariant(cfg, After(cfg, Fresh(spec), before), step);
      }
      if !CanCreateJobs(cfg) {
        StepBuildsNothing(cfg, After(cfg, Fresh(spec), before), step);
      }
    }
  }

  // ----- which artifacts exist -----

  /** The step lets an unfinished Job of this build succeed. */
  predicate Finishes(s: State, step: Step, id: string) {
    && step.JobMoves? && step.to == JobSucceeded
    && step.job in s.jobs && s.jobs[step.job].Unfinished() && s.jobs[step.job].buildId == id
  }

  lemma BuildBuildsNothing(cfg: Config, s: State, answer: JobAnswer)
    ensures ReconcileBuild(cfg, s, answer).state.built == s.built
  {
  }

  lemma StepBuildsExactly(cfg: Config, s: State, step: Step, id: string)
    ensures id in Next(cfg, s, step).built <==> id in s.built || Finishes(s, step, id)
  {
    if step.Reconciles? {
      var i := step.inputs;
      ReconcileSplits(cfg, s, i);
      if ReachesBuild(cfg, s, i) {
        GatesKeepBuild(s, i);
        BuildBuildsNothing(cfg, AtBuild(s, i), i.jobAnswer);
        var build := ReconcileBuild(cfg, AtBuild(s, i), i.jobAnswer);
        if build.Ready? {
          RollOutRollsOut(cfg, build.state, build.buildId, NeedsFullReconciliation(s), i);
        }
      }
    }
  }

  /** Step k of the run lets a Job of this build succeed. */
  predicate FinishesAt(cfg: Config, s: State, steps: seq<Step>, k: nat, id: string)
    requires k < |steps|
  {
    Finishes(After(cfg, s, steps[..k]), steps[k], id)
  }

  lemma SamePrefix(cfg: Config, s: State, steps: seq<Step>, k: nat, id: string)
    requires k < |steps| - 1
    ensures FinishesAt(cfg, s, steps[..|steps| - 1], k, id) == FinishesAt(cfg, s, steps, k, id)
  {
    assert steps[..|steps| - 1][..k] == steps[..k];
  }

  /** The artifacts that exist after a run are exactly those of builds whose Job succeeded at some step of it. */
  lemma {:induction false} BuiltExactly(cfg: Config, spec: Spec, steps: seq<Step>, id: string)
    ensures id in After(cfg, Fresh(spec), steps).built <==>
            exists k :: 0 <= k < |steps| && FinishesAt(cfg, Fresh(spec), steps, k, id)
    decreases |steps|
  {
    if steps != [] {
      var last := |steps| - 1;
      var before := steps[..last];
      BuiltExactly(cfg, spec, before, id);
      StepBuildsExactly(cfg, After(cfg, Fresh(spec), before), steps[last], id);
      forall k | 0 <= k < last
        ensures FinishesAt(cfg, Fresh(spec), before, k, id) == FinishesAt(cfg, Fresh(spec), steps, k, id)
      {
        SamePrefix(cfg, Fresh(spec), steps, k, id);
      }
      assert FinishesAt(cfg, Fresh(spec), steps, last, id) == Finishes(After(cfg, Fresh(spec), before), steps[last], id);
    }
  }

  // ----- the failing family -----

  function BuildOnly(a: Spec): Spec { Spec("", "", "repo", a.gitSha, "", "", false, a.buildGeneration) }

  lemma SameBuildId(cfg: Config, a: Spec)
    ensures ComputeBuildId(cfg, BuildOnly(a)) == ComputeBuildId(cfg, a)
  {
  }

  /** Build a, let it succeed, then ask for b, whose Job has the same name. */
  lemma MergedNamesDeployUnbuilt(cfg: Config, a: Spec, b: Spec) returns (steps: seq<Step>)
    requires ValidConfig(cfg) && CanCreateJobs(cfg)
    requires JobName(cfg.name, ComputeBuildId(cfg, a)) == JobName(cfg.name, ComputeBuildId(cfg, b))
    requires ComputeBuildId(cfg, a) != ComputeBuildId(cfg, b)
    ensures !DeploysOnlyBuilt(After(cfg, Fresh(BuildOnly(a)), steps))
  {
    SameBuildId(cfg, a);
    SameBuildId(cfg, b);
    CurrentBuildId(cfg, a);
    CurrentBuildId(cfg, b);
    JobNameIsLabel(cfg.name, ComputeBuildId(cfg, a));
    var fresh' := Fresh(BuildOnly(a));
    var first := BuildSucceeds(cfg, fresh', QUIET);
    var s := Next(cfg, After(cfg, fresh', first), EditSpec(BuildOnly(b)));
    SeenSuccess(cfg, s, QUIET);
    AfterAppend(cfg, fresh', first, EditSpec(BuildOnly(b)));
    AfterAppend(cfg, fresh', first + [EditSpec(BuildOnly(b))], Reconciles(QUIET));
    steps := first + [EditSpec(BuildOnly(b))] + [Reconciles(QUIET)];
  }

  /**
   * In every run of a deployment only builds that succeeded are deployed, if and only if its Job names tell
   * its builds apart or its name can hold no Job at all.
   */
  lemma DeploysOnlyBuiltExactly(cfg: Config)
    requires ValidConfig(cfg)
    ensures (forall spec, steps :: DeploysOnlyBuilt(After(cfg, Fresh(spec), steps))) <==>
            NamesDistinguish(cfg) || !CanCreateJobs(cfg)
  {
    if NamesDistinguish(cfg) || !CanCreateJobs(cfg) {
      forall spec, steps ensures DeploysOnlyBuilt(After(cfg, Fresh(spec), steps)) {
        RunKeeps(cfg, spec, steps);
      }
    } else {
      var a: Spec, b: Spec :|
        && JobName(cfg.name, ComputeBuildId(cfg, a)) == JobName(cfg.name, ComputeBuildId(cfg, b))
        && ComputeBuildId(cfg, a) != ComputeBuildId(cfg, b);
      var steps := MergedNamesDeployUnbuilt(cfg, a, b);
    }
  }

  /** Names of at most 40 characters are safe. */
  lemma ShortNamesDistinguish(cfg: Config)
    requires ValidConfig(cfg) && |cfg.name| <= 40
    ensures NamesDistinguish(cfg)
  {
    forall a: Spec, b: Spec |
      JobName(cfg.name, ComputeBuildId(cfg, a)) == JobName(cfg.name, ComputeBuildId(cfg, b))
      ensures ComputeBuildId(cfg, a) == ComputeBuildId(cfg, b)
    {
      CurrentBuildId(cfg, a);
      CurrentBuildId(cfg, b);
      JobNameInjective(cfg.name, ComputeBuildId(cfg, a), cfg.name, ComputeBuildId(cfg, b));
    }
  }

  /** Names of 57 characters or more that can hold Jobs at all are unsafe as soon as two builds differ. */
  lemma LongNamesMerge(cfg: Config, a: Spec, b: Spec)
    requires ValidConfig(cfg) && 56 < |cfg.name| <= MAX_LABEL_LENGTH
    requires ComputeBuildId(cfg, a) != ComputeBuildId(cfg, b)
    ensures !NamesDistinguish(cfg)
  {
    CurrentBuildId(cfg, a);
    CurrentBuildId(cfg, b);
    JobNamesCollide(cfg.name, ComputeBuildId(cfg, a), ComputeBuildId(cfg, b));
  }
}
