/** The bounded release history kept in a deployment's status. */
module Releases {

  const MAX_HISTORY := 20

  datatype Release = Release(gitSha: string, imageTag: string, releasedAt: int)

  /** One pass of version tracking: append a changed SHA, then drop the oldest entry past the bound. */
  function Record(history: seq<Release>, current: Release): seq<Release> {
    if current.gitSha == "" then history
    else if history != [] && history[|history| - 1].gitSha == current.gitSha then history
    else
      var longer := history + [current];
      if |longer| > MAX_HISTORY then longer[1..] else longer
  }

  /** What is stored after a whole sequence of tracking passes on a new deployment. */
  function Stored(passes: seq<Release>): seq<Release> {
    if passes == [] then []
    else Record(Stored(passes[..|passes| - 1]), passes[|passes| - 1])
  }

  /** The last SHA that any pass carried, "" when none did. */
  function LastSha(passes: seq<Release>): string {
    if passes == [] then ""
    else if passes[|passes| - 1].gitSha != "" then passes[|passes| - 1].gitSha
    else LastSha(passes[..|passes| - 1])
  }

  /** The unbounded log: every pass whose SHA is set and differs from the last one set before it. */
  function ShaChanges(passes: seq<Release>): seq<Release> {
    if passes == [] then []
    else
      var before, current := passes[..|passes| - 1], passes[|passes| - 1];
      ShaChanges(before) +
      if current.gitSha != "" && current.gitSha != LastSha(before) then [current] else []
  }

  function Newest(log: seq<Release>, n: nat): seq<Release> {
    if |log| <= n then log else log[|log| - n..]
  }

  lemma {:induction false} LogEndsWithLastSha(passes: seq<Release>)
    ensures LastSha(passes) == "" <==> ShaChanges(passes) == []
    ensures ShaChanges(passes) != [] ==> ShaChanges(passes)[|ShaChanges(passes)| - 1].gitSha == LastSha(passes)
  {
    if passes != [] {
      LogEndsWithLastSha(passes[..|passes| - 1]);
    }
  }

  /** The stored history is always the newest (at most 20) part of the unbounded log. */
  lemma {:induction false} StoredIsNewestOfLog(passes: seq<Release>)
    ensures Stored(passes) == Newest(ShaChanges(passes), 20)
    ensures |Stored(passes)| <= 20
  {
    if passes != [] {
      var before := passes[..|passes| - 1];
      StoredIsNewestOfLog(before);
      LogEndsWithLastSha(before);
      var log := ShaChanges(before);
      var current := passes[|passes| - 1];
      if current.gitSha != "" && current.gitSha != LastSha(before) {
        assert Newest(log, MAX_HISTORY) != [] ==>
            Newest(log, MAX_HISTORY)[|Newest(log, MAX_HISTORY)| - 1] == log[|log| - 1];
        assert Stored(passes) == Newest(log + [current], MAX_HISTORY);
      }
    }
  }

  /** Neighbouring entries of the log, and so of the stored history, carry different non-empty SHAs. */
  lemma {:induction false} NeighboursDiffer(passes: seq<Release>)
    ensures forall i :: 0 <= i < |ShaChanges(passes)| ==> ShaChanges(passes)[i].gitSha != ""
    ensures forall i :: 0 < i < |ShaChanges(passes)| ==> ShaChanges(passes)[i - 1].gitSha != ShaChanges(passes)[i].gitSha
    ensures forall i :: 0 < i < |Stored(passes)| ==> Stored(passes)[i - 1].gitSha != Stored(passes)[i].gitSha
  {
    StoredIsNewestOfLog(passes);
    if passes != [] {
      NeighboursDiffer(passes[..|passes| - 1]);
      LogEndsWithLastSha(passes[..|passes| - 1]);
    }
  }
}
