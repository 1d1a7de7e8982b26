/** At most one build Job runs at a time: what every step keeps, and exactly which step breaks it. */
module InFlight {
  import opened Labels
  import opened Operator
  import opened Runs

  /** Every unfinished Job is the one the status tracks, under the name that the status implies. */
  ghost predicate Tracked(cfg: Config, s: State) {
    forall n :: n in s.jobs && s.jobs[n].Unfinished() ==>
      && n == JobName(cfg.name, s.status.buildId)
      && s.jobs[n].buildId == s.status.buildId
      && s.status.buildId != ""
      && (s.status.buildStatus == BuildPending || s.status.buildStatus == BuildRunning)
  }

  ghost predicate AtMostOne(s: State) {
    forall m, n :: m in s.jobs && n in s.jobs && s.jobs[m].Unfinished() && s.jobs[n].Unfinished() ==> m == n
  }

  /**
   * The reconcile reports the build as failed while its Job is still on its second pod: it reaches the
   * build, the build is not already cached, the Job shows a failed pod, and the retry is used up.
   */
  predicate WritesOffRunningJob(cfg: Config, s: State, i: Inputs) {
    var name := CurrentJobName(cfg, s);
    && DueForBuild(cfg, s, i)
    && name in s.jobs
    && s.jobs[name].state == JobRetrying
    && s.status.buildId == ComputeBuildId(cfg, s.spec)
    && s.status.failedRolloutGeneration == s.generation
  }

  lemma BuildKeepsTracked(cfg: Config, s: State, answer: JobAnswer)
    requires ValidConfig(cfg) && Tracked(cfg, s)
    ensures var name := CurrentJobName(cfg, s);
            var writeOff := && !SkipsBuild(s) && !BuildCached(cfg, s) && JobsAnswered(answer)
                            && name in s.jobs && s.jobs[name].state == JobRetrying
                            && s.status.buildId == ComputeBuildId(cfg, s.spec)
                            && s.status.failedRolloutGeneration == s.generation;
            Tracked(cfg, ReconcileBuild(cfg, s, answer).state) <==> !writeOff
  {
    var buildId := ComputeBuildId(cfg, s.spec);
    var name := JobName(cfg.name, buildId);
    if !SkipsBuild(s) && !BuildCached(cfg, s) {
      var t := SupersedeStaleBuildJob(cfg, s, buildId);
      assert t.spec == s.spec && t.status == s.status && t.generation == s.generation;
      assert Tracked(cfg, t);
      assert forall n :: n in t.jobs && t.jobs[n].Unfinished() ==> n == name && s.status.buildId == buildId;
      if JobsAnswered(answer) && name in t.jobs && t.jobs[name].state == JobRetrying && s.status.failedRolloutGeneration == s.generation {
        var u := ReconcileBuild(cfg, s, answer).state;
        assert name in u.jobs && u.jobs[name].Unfinished();
      }
    }
  }

  /** A reconcile keeps the tracking of unfinished Jobs exactly when it does not write off a running one. */
  lemma ReconcileKeepsTracked(cfg: Config, s: State, i: Inputs)
    requires ValidConfig(cfg) && Tracked(cfg, s)
    ensures Tracked(cfg, Reconcile(cfg, s, i)) <==> !WritesOffRunningJob(cfg, s, i)
  {
    ReconcileSplits(cfg, s, i);
    if ReachesBuild(cfg, s, i) {
      GatesKeepBuild(s, i);
      var t := AtBuild(s, i);
      assert Tracked(cfg, t);
      BuildKeepsTracked(cfg, t, i.jobAnswer);
      var build := ReconcileBuild(cfg, t, i.jobAnswer);
      if build.Ready? {
        RollOutRollsOut(cfg, build.state, build.buildId, NeedsFullReconciliation(s), i);
      }
    }
  }

  /** Along the run, no reconcile reports a build as failed while its Job is still on its second pod. */
  ghost predicate NeverWritesOff(cfg: Config, s: State, steps: seq<Step>) {
    forall k :: 0 <= k < |steps| && steps[k].Reconciles? ==>
      !WritesOffRunningJob(cfg, After(cfg, s, steps[..k]), steps[k].inputs)
  }

  /** In every reachable state of such a run at most one Job is unfinished, and the status tracks it. */
  lemma {:induction false} OneBuildInFlight(cfg: Config, spec: Spec, steps: seq<Step>)
    requires ValidConfig(cfg) && NeverWritesOff(cfg, Fresh(spec), steps)
    ensures Tracked(cfg, After(cfg, Fresh(spec), steps))
    ensures AtMostOne(After(cfg, Fresh(spec), steps))
  {
    if steps != [] {
      var k := |steps| - 1;
      assert forall j :: 0 <= j <= k ==> steps[..k][..j] == steps[..j];
      OneBuildInFlight(cfg, spec, steps[..k]);
      var s := After(cfg, Fresh(spec), steps[..k]);
      if steps[k].Reconciles? {
        ReconcileKeepsTracked(cfg, s, steps[k].inputs);
      }
    }
  }

  ghost predicate AlwaysTracked(cfg: Config, s: State, steps: seq<Step>) {
    forall k :: 0 <= k <= |steps| ==> Tracked(cfg, After(cfg, s, steps[..k]))
  }

  lemma StepTracked(cfg: Config, s: State, steps: seq<Step>, k: nat)
    requires ValidConfig(cfg) && k < |steps| && steps[k].Reconciles?
    requires Tracked(cfg, After(cfg, s, steps[..k])) && Tracked(cfg, After(cfg, s, steps[..k + 1]))
    ensures !WritesOffRunningJob(cfg, After(cfg, s, steps[..k]), steps[k].inputs)
  {
    assert steps[..k + 1] == steps[..k] + [steps[k]];
    AfterAppend(cfg, s, steps[..k], steps[k]);
    ReconcileKeepsTracked(cfg, After(cfg, s, steps[..k]), steps[k].inputs);
  }

  /** A run keeps every unfinished Job tracked throughout exactly when it never writes off a running one. */
  lemma {:induction false} TrackedThroughoutExactly(cfg: Config, spec: Spec, steps: seq<Step>)
    requires ValidConfig(cfg)
    ensures AlwaysTracked(cfg, Fresh(spec), steps) <==> NeverWritesOff(cfg, Fresh(spec), steps)
  {
    var s := Fresh(spec);
    if NeverWritesOff(cfg, s, steps) {
      forall k | 0 <= k <= |steps|
        ensures Tracked(cfg, After(cfg, s, steps[..k]))
      {
        assert forall j :: 0 <= j <= k ==> steps[..k][..j] == steps[..j];
        OneBuildInFlight(cfg, spec, steps[..k]);
      }
    }
    if AlwaysTracked(cfg, s, steps) {
      forall k | 0 <= k < |steps| && steps[k].Reconciles?
        ensures !WritesOffRunningJob(cfg, After(cfg, s, steps[..k]), steps[k].inputs)
      {
        StepTracked(cfg, s, steps, k);
      }
    }
  }

  // ----- a condition on the run alone -----

  ghost predicate NoneRetrying(s: State) { forall n :: n in s.jobs ==> s.jobs[n].state != JobRetrying }

  lemma BuildKeepsNoneRetrying(cfg: Config, s: State, answer: JobAnswer)
    requires NoneRetrying(s)
    ensures NoneRetrying(ReconcileBuild(cfg, s, answer).state)
  {
    if !SkipsBuild(s) && !BuildCached(cfg, s) && answer != StaleJobError {
      var t := SupersedeStaleBuildJob(cfg, s, ComputeBuildId(cfg, s.spec));
      assert NoneRetrying(t) && t.spec == s.spec;
    }
  }

  lemma StepKeepsNoneRetrying(cfg: Config, s: State, step: Step)
    requires NoneRetrying(s) && !(step.JobMoves? && step.to == JobRetrying)
    ensures NoneRetrying(Next(cfg, s, step))
  {
    if step.Reconciles? {
      ReconcileSplits(cfg, s, step.inputs);
      if ReachesBuild(cfg, s, step.inputs) {
        GatesKeepBuild(s, step.inputs);
        BuildKeepsNoneRetrying(cfg, AtBuild(s, step.inputs), step.inputs.jobAnswer);
        var build := ReconcileBuild(cfg, AtBuild(s, step.inputs), step.inputs.jobAnswer);
        if build.Ready? {
          RollOutRollsOut(cfg, build.state, build.buildId, NeedsFullReconciliation(s), step.inputs);
        }
      }
    }
  }

  lemma {:induction false} RunKeepsNoneRetrying(cfg: Config, spec: Spec, steps: seq<Step>)
    requires forall k :: 0 <= k < |steps| ==> !(steps[k].JobMoves? && steps[k].to == JobRetrying)
    ensures NoneRetrying(After(cfg, Fresh(spec), steps))
  {
    if steps != [] {
      var last := |steps| - 1;
      RunKeepsNoneRetrying(cfg, spec, steps[..last]);
      StepKeepsNoneRetrying(cfg, After(cfg, Fresh(spec), steps[..last]), steps[last]);
    }
  }

  /** A run in which no Job goes on to a second pod never writes off a running one: one build at a time. */
  lemma SinglePodsNeverWrittenOff(cfg: Config, spec: Spec, steps: seq<Step>)
    requires ValidConfig(cfg)
    requires forall k :: 0 <= k < |steps| ==> !(steps[k].JobMoves? && steps[k].to == JobRetrying)
    ensures NeverWritesOff(cfg, Fresh(spec), steps)
    ensures AtMostOne(After(cfg, Fresh(spec), steps))
  {
    forall k | 0 <= k < |steps| && steps[k].Reconciles?
      ensures !WritesOffRunningJob(cfg, After(cfg, Fresh(spec), steps[..k]), steps[k].inputs)
    {
      RunKeepsNoneRetrying(cfg, spec, steps[..k]);
    }
    OneBuildInFlight(cfg, spec, steps);
  }

  // ----- runs that break it -----

  /** The Job of the current build is on its second pod and the operator is about to look. */
  predicate FirstPodFailed(cfg: Config, s: State, i: Inputs) {
    var name := CurrentJobName(cfg, s);
    && DueForBuild(cfg, s, i)
    && s.jobs.Keys == {name} && s.jobs[name].state == JobRetrying
    && s.status.buildId == ComputeBuildId(cfg, s.spec) && s.status.buildStatus == BuildPending
    && s.status.phase == Building
  }

  predicate NoJobYet(cfg: Config, s: State) {
    Buildable(s.spec) && !AlreadyFailed(s) && !BuildCached(cfg, s) && s.jobs == map[]
  }

  /** One round of the protocol: the Job is created and its first pod fails. */
  lemma FailingRound(cfg: Config, s: State, i: Inputs) returns (steps: seq<Step>)
    requires ValidConfig(cfg) && CanCreateJobs(cfg) && NoJobYet(cfg, s)
    requires !i.capacityFull && i.jobAnswer == CreateAccepted
    ensures var t := After(cfg, s, steps);
            && FirstPodFailed(cfg, t, i) && t.spec == s.spec && t.generation == s.generation && t.workload == s.workload
            && t.jobs[CurrentJobName(cfg, s)].buildId == ComputeBuildId(cfg, s.spec)
            && t.status.failedRolloutGeneration == s.status.failedRolloutGeneration
  {
    var create, fail := Reconciles(i), JobMoves(CurrentJobName(cfg, s), JobRetrying);
    CurrentBuildId(cfg, s.spec);
    JobNameIsLabel(cfg.name, ComputeBuildId(cfg, s.spec));
    DueBuildCreates(cfg, s, i);
    AfterAppend(cfg, s, [], create);
    AfterAppend(cfg, s, [create], fail);
    assert [] + [create] == [create];
    steps := [create] + [fail];
  }

  /** The retry: the Job is deleted and the generation's failure mark is set. */
  lemma RetryRound(cfg: Config, s: State, i: Inputs) returns (steps: seq<Step>)
    requires FirstPodFailed(cfg, s, i) && Buildable(s.spec) && s.status.failedRolloutGeneration != s.generation
    ensures var t := After(cfg, s, steps);
            && NoJobYet(cfg, t) && t.spec == s.spec && t.generation == s.generation && t.workload == s.workload
            && t.status.failedRolloutGeneration == s.generation
  {
    SeenFailure(cfg, s, i);
    AfterAppend(cfg, s, [], Reconciles(i));
    steps := [] + [Reconciles(i)];
    assert After(cfg, s, steps).jobs == map[];
  }

  /** Two failing rounds from a fresh deployment lead to a reconcile that writes off a running Job. */
  lemma WriteOffIsReachable(cfg: Config, spec: Spec, i: Inputs) returns (steps: seq<Step>)
    requires ValidConfig(cfg) && CanCreateJobs(cfg) && Buildable(spec)
    requires !i.capacityFull && i.jobAnswer == CreateAccepted
    ensures WritesOffRunningJob(cfg, After(cfg, Fresh(spec), steps), i)
    ensures After(cfg, Fresh(spec), steps).jobs.Keys == {CurrentJobName(cfg, Fresh(spec))}
    ensures After(cfg, Fresh(spec), steps).spec == spec && After(cfg, Fresh(spec), steps).generation == 1
    ensures After(cfg, Fresh(spec), steps).jobs[CurrentJobName(cfg, Fresh(spec))].buildId == ComputeBuildId(cfg, spec)
  {
    var round1 := FailingRound(cfg, Fresh(spec), i);
    var s1 := After(cfg, Fresh(spec), round1);
    var retry := RetryRound(cfg, s1, i);
    var s2 := After(cfg, s1, retry);
    var round2 := FailingRound(cfg, s2, i);
    AfterConcat(cfg, Fresh(spec), round1, retry);
    AfterConcat(cfg, Fresh(spec), round1 + retry, round2);
    steps := round1 + retry + round2;
  }

  /**
   * The other half: once a running Job has been written off, one edit that changes the build and one
   * reconcile put a second Job beside it.
   */
  lemma WriteOffThenEdit(cfg: Config, s: State, i: Inputs, spec: Spec) returns (rest: seq<Step>)
    requires ValidConfig(cfg) && IsValidLabel(CurrentJobName(cfg, s.(spec := spec)))
    requires WritesOffRunningJob(cfg, s, i) && Buildable(spec)
    requires CurrentJobName(cfg, s.(spec := spec)) !in s.jobs
    requires !i.capacityFull && i.jobAnswer == CreateAccepted
    ensures |rest| == 3 && !AtMostOne(After(cfg, s, rest))
  {
    var first, second := CurrentJobName(cfg, s), CurrentJobName(cfg, s.(spec := spec));
    SeenFailure(cfg, s, i);
    var a := Reconcile(cfg, s, i);
    var b := Next(cfg, a, EditSpec(spec));
    assert !AlreadyFailed(b);
    DueBuildCreates(cfg, b, i);
    var c := Reconcile(cfg, b, i);
    assert second in c.jobs && c.jobs[second].Unfinished() && first in c.jobs && c.jobs[first].Unfinished();
    AfterThree(cfg, s, Reconciles(i), EditSpec(spec), Reconciles(i));
    rest := [Reconciles(i), EditSpec(spec), Reconciles(i)];
  }

  /** So two Jobs do run at once in some run of every deployment that can name two different builds. */
  lemma TwoBuildsInFlight(cfg: Config, spec: Spec, edited: Spec, i: Inputs)
    requires ValidConfig(cfg) && CanCreateJobs(cfg) && Buildable(spec) && Buildable(edited)
    requires JobName(cfg.name, ComputeBuildId(cfg, spec)) != JobName(cfg.name, ComputeBuildId(cfg, edited))
    requires !i.capacityFull && i.jobAnswer == CreateAccepted
    ensures exists steps :: !AtMostOne(After(cfg, Fresh(spec), steps))
  {
    var first := WriteOffIsReachable(cfg, spec, i);
    CurrentBuildId(cfg, edited);
    JobNameIsLabel(cfg.name, ComputeBuildId(cfg, edited));
    var rest := WriteOffThenEdit(cfg, After(cfg, Fresh(spec), first), i, edited);
    AfterConcat(cfg, Fresh(spec), first, rest);
    assert !AtMostOne(After(cfg, Fresh(spec), first + rest));
  }
}
