/** How often a generation builds, and how it ends for good. */
module Retries {
  import opened Options
  import opened Labels
  import opened Operator
  import opened Runs

  // ----- the generation marks -----

  ghost predicate MarksInRange(s: State) {
    && s.status.failedRolloutGeneration <= s.generation
    && s.status.lastReconciledGeneration <= s.generation
  }

  predicate Advances(s: State, t: State) {
    && s.generation <= t.generation
    && s.status.failedRolloutGeneration <= t.status.failedRolloutGeneration
    && s.status.lastReconciledGeneration <= t.status.lastReconciledGeneration
  }

  lemma BuildAdvancesMarks(cfg: Config, s: State, answer: JobAnswer)
    requires MarksInRange(s)
    ensures var t := ReconcileBuild(cfg, s, answer).state;
            MarksInRange(t) && Advances(s, t) && t.generation == s.generation
  {
  }

  /** No step takes a generation mark back or past the current generation. */
  lemma StepAdvancesMarks(cfg: Config, s: State, step: Step)
    requires MarksInRange(s)
    ensures MarksInRange(Next(cfg, s, step)) && Advances(s, Next(cfg, s, step))
  {
    if step.Reconciles? {
      var i := step.inputs;
      ReconcileSplits(cfg, s, i);
      if ReachesBuild(cfg, s, i) {
        GatesKeepBuild(s, i);
        var t := AtBuild(s, i);
        BuildAdvancesMarks(cfg, t, i.jobAnswer);
        var build := ReconcileBuild(cfg, t, i.jobAnswer);
        if build.Ready? {
          RollOutRollsOut(cfg, build.state, build.buildId, NeedsFullReconciliation(s), i);
        }
      }
    }
  }

  /** Over a run, from any earlier point to any later one, the marks only grow and never pass the generation. */
  lemma {:induction false} RunAdvancesMarks(cfg: Config, spec: Spec, steps: seq<Step>, k: nat)
    requires k <= |steps|
    ensures var s, t := After(cfg, Fresh(spec), steps[..k]), After(cfg, Fresh(spec), steps);
            MarksInRange(s) && MarksInRange(t) && Advances(s, t)
  {
    if steps == [] {
      assert steps[..k] == steps;
    } else {
      var before := steps[..|steps| - 1];
      RunAdvancesMarks(cfg, spec, before, if k < |steps| then k else |before|);
      StepAdvancesMarks(cfg, After(cfg, Fresh(spec), before), steps[|steps| - 1]);
      if k < |steps| {
        assert before[..k] == steps[..k];
      } else {
        assert steps[..k] == steps && before[..|before|] == before;
      }
    }
  }

  // ----- terminal failure -----

  /** At a generation marked as failed, any step that keeps the generation keeps the failure and does no work. */
  lemma FailureAbsorbs(cfg: Config, s: State, step: Step)
    requires AlreadyFailed(s) && Next(cfg, s, step).generation == s.generation
    ensures var t := Next(cfg, s, step);
            && AlreadyFailed(t)
            && t.spec == s.spec
            && t.jobs.Keys <= s.jobs.Keys
            && OnlyTracks(s, t)
            && (t.workload == s.workload || t.workload == None)
  {
    if step.Reconciles? {
      ReconcileSplits(cfg, s, step.inputs);
      GatesKeepBuild(s, step.inputs);
    }
  }

  /** From then on, however long the run stays at that generation. */
  lemma {:induction false} FailureIsFinal(cfg: Config, s: State, steps: seq<Step>)
    requires AlreadyFailed(s) && MarksInRange(s) && After(cfg, s, steps).generation == s.generation
    ensures var t := After(cfg, s, steps);
            && AlreadyFailed(t)
            && MarksInRange(t)
            && t.jobs.Keys <= s.jobs.Keys
            && OnlyTracks(s, t)
            && (t.workload == s.workload || t.workload == None)
  {
    if steps != [] {
      var before := steps[..|steps| - 1];
      GenerationGrows(cfg, s, before);
      StepAdvancesMarks(cfg, After(cfg, s, before), steps[|steps| - 1]);
      FailureIsFinal(cfg, s, before);
      FailureAbsorbs(cfg, After(cfg, s, before), steps[|steps| - 1]);
    }
  }

  lemma {:induction false} GenerationGrows(cfg: Config, s: State, steps: seq<Step>)
    requires MarksInRange(s)
    ensures s.generation <= After(cfg, s, steps).generation && MarksInRange(After(cfg, s, steps))
  {
    if steps != [] {
      GenerationGrows(cfg, s, steps[..|steps| - 1]);
      StepAdvancesMarks(cfg, After(cfg, s, steps[..|steps| - 1]), steps[|steps| - 1]);
    }
  }

  // ----- how many Jobs a generation creates -----

  function Created(notes: seq<Note>, g: nat): nat {
    if notes == [] then 0
    else
      var last := notes[|notes| - 1];
      Created(notes[..|notes| - 1], g) + if last.JobCreated? && last.generation == g then 1 else 0
  }

  function Lost(notes: seq<Note>, g: nat): nat {
    if notes == [] then 0
    else
      var last := notes[|notes| - 1];
      Lost(notes[..|notes| - 1], g) + if last.JobLost? && last.generation == g then 1 else 0
  }

  lemma NoteAdded(notes: seq<Note>, note: Note, g: nat)
    ensures Created(notes + [note], g) == Created(notes, g) + if note.JobCreated? && note.generation == g then 1 else 0
    ensures Lost(notes + [note], g) == Lost(notes, g) + if note.JobLost? && note.generation == g then 1 else 0
  {
    assert (notes + [note])[..|notes|] == notes;
  }

  lemma {:induction false} TrackingCountsNothing(s: State, t: State, g: nat)
    requires OnlyTracks(s, t)
    ensures Created(t.notes, g) == Created(s.notes, g) && Lost(t.notes, g) == Lost(s.notes, g)
    decreases |t.notes|
  {
    if |t.notes| == |s.notes| {
      assert t.notes == s.notes;
    } else {
      var shorter := t.(notes := t.notes[..|t.notes| - 1]);
      TrackingCountsNothing(s, shorter, g);
    }
  }

  ghost predicate JobInHand(cfg: Config, s: State) {
    CurrentJobName(cfg, s) in s.jobs && s.jobs[CurrentJobName(cfg, s)].createdIn == s.generation
  }

  /** Jobs carry the generation that made them; this generation's Jobs are for the build in the status. */
  ghost predicate JobsDated(cfg: Config, s: State) {
    forall n :: n in s.jobs ==>
      && s.jobs[n].createdIn <= s.generation
      && (s.jobs[n].createdIn == s.generation ==> s.status.buildId == ComputeBuildId(cfg, s.spec))
  }

  /** Each Job created so far was lost, or was written off against the retry, or is in hand or concluded. */
  ghost predicate Paid(cfg: Config, s: State) {
    Created(s.notes, s.generation) <=
      Lost(s.notes, s.generation)
      + (if s.status.failedRolloutGeneration == s.generation then 1 else 0)
      + (if JobInHand(cfg, s) || OutcomeRecorded(cfg, s) then 1 else 0)
  }

  ghost predicate Bounded(s: State) {
    && (forall g: nat :: Created(s.notes, g) <= 2 + Lost(s.notes, g))
    && (forall g: nat :: g > s.generation ==> Created(s.notes, g) == 0)
  }

  ghost predicate Budget(cfg: Config, s: State) {
    JobsDated(cfg, s) && Paid(cfg, s) && Bounded(s) && MarksInRange(s)
  }

  /** A state with the same Jobs, build fields and counts, and no weaker marks, is as well off. */
  lemma BudgetCarries(cfg: Config, s: State, t: State)
    requires Budget(cfg, s) && SameBuild(s, t) && OnlyTracks(s, t) && MarksInRange(t)
    requires s.status.failedRolloutGeneration == s.generation ==> t.status.failedRolloutGeneration == s.generation
    requires AlreadyFailed(s) ==> AlreadyFailed(t)
    ensures Budget(cfg, t)
  {
    forall g: nat
      ensures Created(t.notes, g) == Created(s.notes, g) && Lost(t.notes, g) == Lost(s.notes, g)
    {
      TrackingCountsNothing(s, t, g);
    }
  }

  lemma CreateKeepsBudget(cfg: Config, s: State, answer: JobAnswer)
    requires Budget(cfg, s) && !OutcomeRecorded(cfg, s) && CurrentJobName(cfg, s) !in s.jobs
    ensures Budget(cfg, CreateBuildJob(cfg, s, ComputeBuildId(cfg, s.spec), answer).state)
  {
    var id := ComputeBuildId(cfg, s.spec);
    var t := CreateBuildJob(cfg, s, id, answer).state;
    if t != s {
      forall g: nat
        ensures Created(t.notes, g) == Created(s.notes, g) + if g == s.generation then 1 else 0
        ensures Lost(t.notes, g) == Lost(s.notes, g)
      {
        NoteAdded(s.notes, JobCreated(s.generation, id), g);
      }
      assert JobInHand(cfg, t);
    }
  }

  lemma ObserveKeepsBudget(cfg: Config, s: State)
    requires Budget(cfg, s) && !OutcomeRecorded(cfg, s) && CurrentJobName(cfg, s) in s.jobs
    ensures Budget(cfg, ObserveBuildJob(cfg, s, ComputeBuildId(cfg, s.spec), s.jobs[CurrentJobName(cfg, s)]).state)
  {
  }

  lemma SupersedeKeepsBudget(cfg: Config, s: State)
    requires Budget(cfg, s)
    ensures Budget(cfg, SupersedeStaleBuildJob(cfg, s, ComputeBuildId(cfg, s.spec)))
  {
  }

  lemma BuildKeepsBudget(cfg: Config, s: State, answer: JobAnswer)
    requires Budget(cfg, s) && !AlreadyFailed(s)
    ensures Budget(cfg, ReconcileBuild(cfg, s, answer).state)
  {
    if !SkipsBuild(s) && !BuildCached(cfg, s) && answer != StaleJobError {
      SupersedeKeepsBudget(cfg, s);
      var t := SupersedeStaleBuildJob(cfg, s, ComputeBuildId(cfg, s.spec));
      if answer == JobReadError {
      } else if CurrentJobName(cfg, t) in t.jobs {
        ObserveKeepsBudget(cfg, t);
      } else {
        CreateKeepsBudget(cfg, t, answer);
      }
    }
  }

  lemma ReadyHasNotFailed(cfg: Config, s: State, answer: JobAnswer)
    requires !AlreadyFailed(s) && ReconcileBuild(cfg, s, answer).Ready?
    ensures !AlreadyFailed(ReconcileBuild(cfg, s, answer).state)
  {
  }

  lemma ReconcileKeepsBudget(cfg: Config, s: State, i: Inputs)
    requires Budget(cfg, s) && !NeedsMigration(s.spec)
    ensures Budget(cfg, Reconcile(cfg, s, i))
  {
    StepAdvancesMarks(cfg, s, Reconciles(i));
    ReconcileSplits(cfg, s, i);
    GatesKeepBuild(s, i);
    if ReachesBuild(cfg, s, i) {
      BudgetCarries(cfg, s, AtBuild(s, i));
      BuildKeepsBudget(cfg, AtBuild(s, i), i.jobAnswer);
      var build := ReconcileBuild(cfg, AtBuild(s, i), i.jobAnswer);
      if build.Ready? {
        ReadyHasNotFailed(cfg, AtBuild(s, i), i.jobAnswer);
        RollOutRollsOut(cfg, build.state, build.buildId, NeedsFullReconciliation(s), i);
        BudgetCarries(cfg, build.state, Reconcile(cfg, s, i));
      }
    } else {
      if AlreadyFailed(s) {
        FailureAbsorbs(cfg, s, Reconciles(i));
      }
      BudgetCarries(cfg, s, Reconcile(cfg, s, i));
    }
  }

  /** A new generation starts with nothing created and nothing in hand. */
  lemma NewGenerationHasBudget(cfg: Config, s: State, t: State)
    requires Budget(cfg, s) && t.generation == s.generation + 1 && t.notes == s.notes && t.jobs == s.jobs
    requires MarksInRange(t)
    ensures Budget(cfg, t)
  {
  }

  lemma LossCounts(s: State, t: State)
    requires t.notes == s.notes + [JobLost(s.generation)]
    ensures forall g: nat :: Created(t.notes, g) == Created(s.notes, g)
    ensures forall g: nat :: Lost(t.notes, g) == Lost(s.notes, g) + if g == s.generation then 1 else 0
  {
    forall g: nat
      ensures Created(t.notes, g) == Created(s.notes, g)
      ensures Lost(t.notes, g) == Lost(s.notes, g) + if g == s.generation then 1 else 0
    {
      NoteAdded(s.notes, JobLost(s.generation), g);
    }
  }

  /** Losing a Job is paid for by the note, unless the outcome is recorded or the Job is of another generation. */
  lemma DropKeepsBudget(cfg: Config, s: State, name: string)
    requires Budget(cfg, s)
    ensures Budget(cfg, DropJob(cfg, s, name))
  {
    var t := DropJob(cfg, s, name);
    assert JobsDated(cfg, t) && MarksInRange(t);
    assert OutcomeRecorded(cfg, t) == OutcomeRecorded(cfg, s);
    if name in s.jobs && s.jobs[name].createdIn == s.generation && !OutcomeRecorded(cfg, s) {
      LossCounts(s, t);
    } else {
      assert JobInHand(cfg, s) && !JobInHand(cfg, t) ==> OutcomeRecorded(cfg, s);
    }
  }

  lemma StepKeepsBudget(cfg: Config, s: State, step: Step)
    requires Budget(cfg, s)
    ensures Budget(cfg, Next(cfg, s, step))
  {
    match step
    case Reconciles(i) =>
      if NeedsMigration(s.spec) {
        NewGenerationHasBudget(cfg, s, MigrateDisplayName(s));
      } else {
        ReconcileKeepsBudget(cfg, s, i);
      }
    case EditSpec(spec) => NewGenerationHasBudget(cfg, s, Next(cfg, s, step));
    case JobMoves(name, to) =>
    case JobVanishes(name) => DropKeepsBudget(cfg, s, name);
    case WorkloadDeleted =>
  }

  /**
   * Over any run each generation creates at most two Jobs, plus one for each Job of that generation that
   * vanished before its outcome was recorded.
   */
  lemma {:induction false} JobsPerGeneration(cfg: Config, spec: Spec, steps: seq<Step>)
    ensures Budget(cfg, After(cfg, Fresh(spec), steps))
    ensures var notes := After(cfg, Fresh(spec), steps).notes;
            forall g: nat :: Created(notes, g) <= 2 + Lost(notes, g)
  {
    if steps != [] {
      var before := steps[..|steps| - 1];
      JobsPerGeneration(cfg, spec, before);
      StepKeepsBudget(cfg, After(cfg, Fresh(spec), before), steps[|steps| - 1]);
    }
  }

  /** The second failure seen in a generation ends it: BuildFailed, and then nothing more happens. */
  lemma SecondFailureIsFinal(cfg: Config, s: State, i: Inputs, later: seq<Step>)
    requires SeesFailure(cfg, s, i) && MarksInRange(s) && s.status.failedRolloutGeneration == s.generation
    requires After(cfg, Reconcile(cfg, s, i), later).generation == s.generation
    ensures Reconcile(cfg, s, i).status.phase == BuildFailed
    ensures AlreadyFailed(After(cfg, Reconcile(cfg, s, i), later))
    ensures OnlyTracks(s, After(cfg, Reconcile(cfg, s, i), later))
  {
    SeenFailure(cfg, s, i);
    StepAdvancesMarks(cfg, s, Reconciles(i));
    FailureIsFinal(cfg, Reconcile(cfg, s, i), later);
  }

  /**
   * Over a run: two reconciles that see a failed Job in the same generation, whatever lies between them, leave
   * it BuildFailed, and it stays failed and does no work at every later point of that generation.
   */
  lemma TwoFailuresEndGeneration(cfg: Config, spec: Spec, steps: seq<Step>, j: nat, k: nat, m: nat)
    requires j < k < m <= |steps| && steps[j].Reconciles? && steps[k].Reconciles?
    requires SeesFailure(cfg, After(cfg, Fresh(spec), steps[..j]), steps[j].inputs)
    requires SeesFailure(cfg, After(cfg, Fresh(spec), steps[..k]), steps[k].inputs)
    requires After(cfg, Fresh(spec), steps[..j]).generation == After(cfg, Fresh(spec), steps[..k]).generation
    requires After(cfg, Fresh(spec), steps[..m]).generation == After(cfg, Fresh(spec), steps[..k]).generation
    ensures After(cfg, Fresh(spec), steps[..k + 1]).status.phase == BuildFailed
    ensures AlreadyFailed(After(cfg, Fresh(spec), steps[..m]))
    ensures OnlyTracks(After(cfg, Fresh(spec), steps[..k]), After(cfg, Fresh(spec), steps[..m]))
  {
    var s := After(cfg, Fresh(spec), steps[..k]);
    FailureUsesMark(cfg, spec, steps, j, k);
    AfterCut(cfg, Fresh(spec), steps, k, m);
    SecondFailureIsFinal(cfg, s, steps[k].inputs, steps[k + 1..m]);
  }

  /** A failure seen in a generation has used up its mark by any later point of that generation. */
  lemma FailureUsesMark(cfg: Config, spec: Spec, steps: seq<Step>, j: nat, k: nat)
    requires j < k <= |steps| && steps[j].Reconciles?
    requires SeesFailure(cfg, After(cfg, Fresh(spec), steps[..j]), steps[j].inputs)
    requires After(cfg, Fresh(spec), steps[..j]).generation == After(cfg, Fresh(spec), steps[..k]).generation
    ensures var s := After(cfg, Fresh(spec), steps[..k]);
            MarksInRange(s) && s.status.failedRolloutGeneration == s.generation
  {
    SeenFailure(cfg, After(cfg, Fresh(spec), steps[..j]), steps[j].inputs);
    AfterCut(cfg, Fresh(spec), steps, j, k);
    RunAdvancesMarks(cfg, spec, steps[..k], j + 1);
    assert steps[..k][..j + 1] == steps[..j + 1];
  }

  // ----- the retry after an edit -----

  /**
   * A failed Job deleted for retry is replaced by the next unobstructed reconcile exactly when the
   * deletion did not happen in a terminal phase. In one, the deletion itself marks the generation as failed.
   */
  lemma RetryRecreatesExactly(cfg: Config, s: State, i: Inputs)
    requires ValidConfig(cfg) && CanCreateJobs(cfg) && Buildable(s.spec)
    requires SeesFailure(cfg, s, i) && !i.capacityFull && i.jobAnswer == CreateAccepted
    requires s.status.failedRolloutGeneration < s.generation
    ensures CurrentJobName(cfg, s) !in Reconcile(cfg, s, i).jobs
    ensures CurrentJobName(cfg, s) in Reconcile(cfg, Reconcile(cfg, s, i), i).jobs <==>
            !IsTerminalFailure(s.status.phase)
  {
    SeenFailure(cfg, s, i);
    var t := Reconcile(cfg, s, i);
    if IsTerminalFailure(s.status.phase) {
      FailureAbsorbs(cfg, t, Reconciles(i));
    } else {
      CurrentBuildId(cfg, t.spec);
      JobNameIsLabel(cfg.name, ComputeBuildId(cfg, t.spec));
      assert !AlreadyFailed(t) && DueForBuild(cfg, t, i);
      DueBuildCreates(cfg, t, i);
    }
  }

  /** In the terminal phase no Job is ever made again at that generation, whatever follows. */
  lemma StrandedRetryNeverBuilds(cfg: Config, s: State, i: Inputs, later: seq<Step>)
    requires SeesFailure(cfg, s, i) && MarksInRange(s) && IsTerminalFailure(s.status.phase)
    requires s.status.failedRolloutGeneration < s.generation
    requires After(cfg, Reconcile(cfg, s, i), later).generation == s.generation
    ensures CurrentJobName(cfg, s) !in After(cfg, Reconcile(cfg, s, i), later).jobs
    ensures OnlyTracks(s, After(cfg, Reconcile(cfg, s, i), later))
  {
    SeenFailure(cfg, s, i);
    StepAdvancesMarks(cfg, s, Reconciles(i));
    FailureIsFinal(cfg, Reconcile(cfg, s, i), later);
  }
}
