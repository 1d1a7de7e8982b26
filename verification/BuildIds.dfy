/** Which inputs a build ID tells apart. */
module BuildIds {
  import opened Labels
  import opened Operator
  import opened Runs
  import opened Retries

  function Parse(digits: string): nat
    requires forall k :: 0 <= k < |digits| ==> IsDigit(digits[k])
  {
    if digits == "" then 0
    else
      assert IsDigit(digits[|digits| - 1]);
      Parse(digits[..|digits| - 1]) * 10 + (digits[|digits| - 1] as int - '0' as int)
  }

  lemma {:induction false} ParseOfDecimal(n: nat)
    ensures forall k :: 0 <= k < |Decimal(n)| ==> IsDigit(Decimal(n)[k])
    ensures Decimal(n) != "" && Parse(Decimal(n)) == n
  {
    if n < 10 {
      assert Decimal(n)[..0] == "";
    } else {
      ParseOfDecimal(n / 10);
      var last := ('0' as int + n % 10) as char;
      assert Decimal(n)[..|Decimal(n)| - 1] == Decimal(n / 10);
      assert Decimal(n)[|Decimal(n)| - 1] == last;
    }
  }

  lemma DecimalInjective(a: nat, b: nat)
    requires Decimal(a) == Decimal(b)
    ensures a == b
  {
    ParseOfDecimal(a);
    ParseOfDecimal(b);
  }

  /** The part of the content after the name: the SHA and, for a positive counter, the counter. */
  function Suffix(gitSha: string, buildGeneration: int): string {
    gitSha + if buildGeneration > 0 then "|bg:" + Decimal(buildGeneration) else ""
  }

  /** The content hashed into the build ID is the same exactly when SHA and effective counter are. */
  lemma ContentTellsBuildsApart(name: string, sha1: string, g1: int, sha2: string, g2: int)
    requires '|' !in sha1 && '|' !in sha2
    ensures BuildContent(name, sha1, g1) == BuildContent(name, sha2, g2) <==>
            sha1 == sha2 && (if g1 > 0 then g1 else 0) == (if g2 > 0 then g2 else 0)
  {
    var a, b := Suffix(sha1, g1), Suffix(sha2, g2);
    assert BuildContent(name, sha1, g1) == (name + "|") + a;
    assert BuildContent(name, sha2, g2) == (name + "|") + b;
    assert ((name + "|") + a)[|name| + 1..] == a && ((name + "|") + b)[|name| + 1..] == b;
    if a == b {
      SameInputs(sha1, g1, sha2, g2);
    }
  }

  lemma SameInputs(sha1: string, g1: int, sha2: string, g2: int)
    requires '|' !in sha1 && '|' !in sha2 && Suffix(sha1, g1) == Suffix(sha2, g2)
    ensures sha1 == sha2 && (if g1 > 0 then g1 else 0) == (if g2 > 0 then g2 else 0)
  {
    SameLength(sha1, g1, sha2, g2);
    SameLength(sha2, g2, sha1, g1);
    var a, b := Suffix(sha1, g1), Suffix(sha2, g2);
    assert sha1 == a[..|sha1|] == b[..|sha2|] == sha2;
    if g1 > 0 {
      assert a[|sha1|] == '|' && |b| > |sha2|;
      assert a[|sha1| + 4..] == Decimal(g1) && b[|sha2| + 4..] == Decimal(g2);
      DecimalInjective(g1, g2);
    }
  }

  /** The SHA ends where the first bar is. */
  lemma SameLength(sha1: string, g1: int, sha2: string, g2: int)
    requires '|' !in sha1 && '|' !in sha2 && Suffix(sha1, g1) == Suffix(sha2, g2)
    ensures |sha1| >= |sha2|
  {
    var a, b := Suffix(sha1, g1), Suffix(sha2, g2);
    assert g1 > 0 ==> a[|sha1|] == '|';
    assert g1 <= 0 ==> a == sha1;
    assert forall k :: 0 <= k < |sha2| ==> b[k] == sha2[k] && b[k] != '|';
  }

  /** Names without a bar are told apart as well. */
  lemma ContentTellsDeploymentsApart(name1: string, name2: string, sha1: string, g1: int, sha2: string, g2: int)
    requires '|' !in name1 && '|' !in name2
    requires BuildContent(name1, sha1, g1) == BuildContent(name2, sha2, g2)
    ensures name1 == name2
  {
    var a, b := BuildContent(name1, sha1, g1), BuildContent(name2, sha2, g2);
    assert a[|name1|] == '|' && b[|name2|] == '|';
    assert forall k :: 0 <= k < |name1| ==> a[k] == name1[k];
    assert forall k :: 0 <= k < |name2| ==> b[k] == name2[k];
    assert |name1| == |name2|;
  }

  /** A bar in the SHA would defeat that: the counter could be spelt inside it. */
  lemma BarDefeatsContent(name: string, sha: string)
    ensures BuildContent(name, sha + "|bg:1", 0) == BuildContent(name, sha, 1)
  {
  }

  // ----- the ID itself -----

  function Effective(buildGeneration: int): int { if buildGeneration > 0 then buildGeneration else 0 }

  /** The two specs ask for the same build. */
  predicate SameRequest(a: Spec, b: Spec) {
    a.gitSha == b.gitSha && Effective(a.buildGeneration) == Effective(b.buildGeneration)
  }

  /** Neither SHA has a bar, and the hashes of the two contents differ in the digits that are kept, if the contents do. */
  ghost predicate Distinguishable(cfg: Config, a: Spec, b: Spec)
    requires ValidConfig(cfg)
  {
    var x, y := BuildContent(cfg.name, a.gitSha, a.buildGeneration), BuildContent(cfg.name, b.gitSha, b.buildGeneration);
    '|' !in a.gitSha && '|' !in b.gitSha && (x != y ==> cfg.sha256(x)[..BUILD_ID_LENGTH] != cfg.sha256(y)[..BUILD_ID_LENGTH])
  }

  /** Two specs have the same build ID exactly when they ask for the same build. */
  lemma BuildIdTellsBuildsApart(cfg: Config, a: Spec, b: Spec)
    requires ValidConfig(cfg) && Distinguishable(cfg, a, b)
    ensures ComputeBuildId(cfg, a) == ComputeBuildId(cfg, b) <==> SameRequest(a, b)
  {
    ContentTellsBuildsApart(cfg.name, a.gitSha, a.buildGeneration, b.gitSha, b.buildGeneration);
  }

  /**
   * Over runs: once a build has succeeded, an edit makes a build due again exactly when it changes the SHA or
   * the build counter. The reconcile then creates a Job for the new request, if none stands under its name.
   */
  lemma EditRebuildsExactly(cfg: Config, spec: Spec, steps: seq<Step>, edited: Spec, i: Inputs)
    requires ValidConfig(cfg) && CanCreateJobs(cfg) && Buildable(edited)
    requires !i.capacityFull && i.jobAnswer == CreateAccepted
    requires var s := After(cfg, Fresh(spec), steps); BuildCached(cfg, s) && Distinguishable(cfg, s.spec, edited)
    ensures var s := After(cfg, Fresh(spec), steps);
            var t := Next(cfg, s, EditSpec(edited));
            && (DueForBuild(cfg, t, i) <==> !SameRequest(s.spec, edited))
            && (DueForBuild(cfg, t, i) && CurrentJobName(cfg, t) !in s.jobs ==>
                  var u := Reconcile(cfg, t, i);
                  && CurrentJobName(cfg, t) in u.jobs
                  && u.jobs[CurrentJobName(cfg, t)] == Job(ComputeBuildId(cfg, edited), t.generation, JobActive))
  {
    var s := After(cfg, Fresh(spec), steps);
    var t := Next(cfg, s, EditSpec(edited));
    RunAdvancesMarks(cfg, spec, steps, |steps|);
    BuildIdTellsBuildsApart(cfg, s.spec, edited);
    CurrentBuildId(cfg, edited);
    JobNameIsLabel(cfg.name, ComputeBuildId(cfg, edited));
    assert !AlreadyFailed(t) && ReachesBuild(cfg, t, i);
    if DueForBuild(cfg, t, i) && CurrentJobName(cfg, t) !in s.jobs {
      DueBuildCreates(cfg, t, i);
    }
  }
}
