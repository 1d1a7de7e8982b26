/** The release history over whole runs of the operator. */
module History {
  import opened Releases
  import opened Operator
  import opened Runs

  /** The releases of the version-tracking passes, oldest first. */
  function Passes(notes: seq<Note>): seq<Release> {
    if notes == [] then []
    else
      var last := notes[|notes| - 1];
      Passes(notes[..|notes| - 1]) + if last.VersionTracked? then [last.release] else []
  }

  lemma OtherNotesPass(notes: seq<Note>, note: Note)
    requires !note.VersionTracked?
    ensures Passes(notes + [note]) == Passes(notes)
  {
    assert (notes + [note])[..|notes|] == notes;
  }

  ghost predicate HistoryMatches(s: State) {
    s.status.releaseHistory == Stored(Passes(s.notes))
  }

  predicate SameHistory(s: State, t: State) {
    s.notes == t.notes && s.status.releaseHistory == t.status.releaseHistory
  }

  lemma TrackingMatches(cfg: Config, s: State, now: int)
    requires HistoryMatches(s)
    ensures HistoryMatches(UpdateVersionTracking(cfg, s, now))
  {
    var t := UpdateVersionTracking(cfg, s, now);
    var passes, release := Passes(s.notes), Release(s.spec.gitSha, ContainerImageTag(cfg, s.spec), now);
    assert t.notes[..|s.notes|] == s.notes;
    assert Passes(t.notes) == passes + [release];
    assert (passes + [release])[..|passes|] == passes;
  }

  lemma AssessmentKeepsHistory(cfg: Config, s: State, buildId: string, i: Inputs)
    ensures SameHistory(s, AssessAndFinalize(cfg, s, buildId, i))
  {
    var determined := DetermineDeploymentPhase(s, i.health);
    var tracked := TrackRolloutStart(s, determined, i.now);
    ConclusionKeepsHistory(s, tracked, CheckRolloutTimeout(cfg, tracked, i.health, determined, i.now), buildId, i);
  }

  lemma ConclusionKeepsHistory(s: State, tracked: State, phase: Phase, buildId: string, i: Inputs)
    requires SameHistory(s, tracked)
    ensures SameHistory(s, Conclude(s, tracked, phase, buildId, i))
  {
  }

  lemma RollOutMatches(cfg: Config, s: State, buildId: string, full: bool, i: Inputs)
    requires HistoryMatches(s)
    ensures HistoryMatches(RollOut(cfg, s, buildId, full, i))
  {
    var applied := ReconcileDeployment(s, buildId, i.apply).state;
    assert SameHistory(s, applied);
    TrackingMatches(cfg, applied, i.now);
    AssessmentKeepsHistory(cfg, TrackIf(full, cfg, applied, i.now), buildId, i);
  }

  lemma BuildNotesOneJob(cfg: Config, s: State, answer: JobAnswer)
    ensures var t := ReconcileBuild(cfg, s, answer).state;
            && t.status.releaseHistory == s.status.releaseHistory
            && (t.notes == s.notes || t.notes == s.notes + [JobCreated(s.generation, ComputeBuildId(cfg, s.spec))])
  {
    if !SkipsBuild(s) && !BuildCached(cfg, s) && JobsAnswered(answer) {
      var t := SupersedeStaleBuildJob(cfg, s, ComputeBuildId(cfg, s.spec));
      assert t == s.(jobs := t.jobs);
    }
  }

  lemma BuildAndRollOutMatches(cfg: Config, s: State, full: bool, i: Inputs)
    requires HistoryMatches(s)
    ensures HistoryMatches(BuildAndRollOut(cfg, s, full, i))
  {
    BuildNotesOneJob(cfg, s, i.jobAnswer);
    OtherNotesPass(s.notes, JobCreated(s.generation, ComputeBuildId(cfg, s.spec)));
    var build := ReconcileBuild(cfg, s, i.jobAnswer);
    if build.Ready? {
      RollOutMatches(cfg, build.state, build.buildId, full, i);
    }
  }

  lemma AfterGatesMatches(cfg: Config, s: State, full: bool, i: Inputs)
    requires HistoryMatches(s)
    ensures HistoryMatches(AfterGates(cfg, s, full, i))
  {
    TrackingMatches(cfg, s, i.now);
    BuildAndRollOutMatches(cfg, s, full, i);
  }

  lemma GatesKeepHistory(s: State, secret: SecretRead)
    ensures SameHistory(s, CheckSecretGate(InitializeStatus(s), secret).state)
    ensures SameHistory(s, MigrateDisplayName(s))
  {
  }

  lemma ReconcileMatches(cfg: Config, s: State, i: Inputs)
    requires HistoryMatches(s)
    ensures HistoryMatches(Reconcile(cfg, s, i))
  {
    GatesKeepHistory(s, i.secret);
    var t := CheckSecretGate(InitializeStatus(s), i.secret).state;
    AfterGatesMatches(cfg, t, NeedsFullReconciliation(s), i);
  }

  /**
   * In every reachable state the stored history is the newest part, at most 20 entries, of the unbounded log
   * of SHA changes that the run's tracking passes saw, and neighbouring entries differ.
   */
  lemma {:induction false} HistoryOverRuns(cfg: Config, spec: Spec, steps: seq<Step>)
    ensures var s := After(cfg, Fresh(spec), steps);
            var history := s.status.releaseHistory;
            && HistoryMatches(s)
            && history == Newest(ShaChanges(Passes(s.notes)), MAX_HISTORY)
            && |history| <= MAX_HISTORY
            && forall k :: 0 < k < |history| ==> history[k - 1].gitSha != history[k].gitSha
  {
    var s := After(cfg, Fresh(spec), steps);
    if steps != [] {
      var before, step := steps[..|steps| - 1], steps[|steps| - 1];
      HistoryOverRuns(cfg, spec, before);
      StepMatches(cfg, After(cfg, Fresh(spec), before), step);
    }
    StoredIsNewestOfLog(Passes(s.notes));
    NeighboursDiffer(Passes(s.notes));
  }

  lemma StepMatches(cfg: Config, s: State, step: Step)
    requires HistoryMatches(s)
    ensures HistoryMatches(Next(cfg, s, step))
  {
    match step
    case Reconciles(i) => ReconcileMatches(cfg, s, i);
    case JobVanishes(name) => OtherNotesPass(s.notes, JobLost(s.generation));
    case _ =>
  }
}
