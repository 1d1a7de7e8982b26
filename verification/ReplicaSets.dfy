/** Which ReplicaSet remediation scales to zero. */
module ReplicaSets {
  import opened Options

  /** `revision` is the parsed revision annotation, `None` where it does not parse. */
  datatype ReplicaSet = ReplicaSet(
    owned: bool, revision: Option<int>, createdAt: int, availableReplicas: nat, replicas: Option<nat>)

  predicate Serving(rs: ReplicaSet) { rs.owned && rs.availableReplicas > 0 }

  /** Some owned ReplicaSet among the first n, other than the chosen one, has available replicas. */
  predicate AnotherServes(sets: seq<ReplicaSet>, n: nat, chosen: Option<nat>)
    requires n <= |sets|
  {
    exists j :: 0 <= j < n && Serving(sets[j]) && chosen != Some(j)
  }

  predicate RevisionsParse(sets: seq<ReplicaSet>) {
    forall j :: 0 <= j < |sets| && sets[j].owned ==> sets[j].revision.Some? && sets[j].revision.value >= 0
  }

  /** The first of the owned ReplicaSets with the highest revision, among the first n. */
  predicate IsFirstNewest(sets: seq<ReplicaSet>, n: nat, chosen: Option<nat>)
    requires n <= |sets| && RevisionsParse(sets)
  {
    match chosen
    case None => forall j :: 0 <= j < n ==> !sets[j].owned
    case Some(c) =>
      && c < n && sets[c].owned
      && forall j :: 0 <= j < n && sets[j].owned ==>
           && sets[j].revision.value <= sets[c].revision.value
           && (j < c ==> sets[j].revision.value < sets[c].revision.value)
  }

  /** Its revision is proper and higher than every one before it. */
  predicate SetsRecord(sets: seq<ReplicaSet>, j: nat)
    requires j < |sets|
  {
    && sets[j].revision.Some? && sets[j].revision.value >= 0
    && forall k :: 0 <= k < j && sets[k].owned && sets[k].revision.Some? ==> sets[k].revision.value < sets[j].revision.value
  }

  /** With no choice yet, everything owned so far has an improper revision. */
  predicate NothingChosen(sets: seq<ReplicaSet>, n: nat)
    requires n <= |sets|
  {
    forall j :: 0 <= j < n && sets[j].owned ==> sets[j].revision.Some? && sets[j].revision.value < 0
  }

  /**
   * The choice among the first n, whatever the annotations. It took its place by a record revision or, without
   * a revision, by being created after the choice before it; and nothing owned after it takes the place.
   */
  ghost predicate Holds(sets: seq<ReplicaSet>, n: nat, c: nat)
    requires c < n <= |sets|
    decreases n
  {
    && sets[c].owned
    && (if sets[c].revision.Some? then SetsRecord(sets, c)
        else NothingChosen(sets, c) || exists d :: 0 <= d < c && Holds(sets, c, d) && sets[c].createdAt > sets[d].createdAt)
    && forall j :: c < j < n && sets[j].owned ==>
         if sets[j].revision.None? then sets[j].createdAt <= sets[c].createdAt else !SetsRecord(sets, j)
  }

  lemma HoldsEarlier(sets: seq<ReplicaSet>, m: nat, n: nat, c: nat)
    requires c < m <= n <= |sets| && Holds(sets, n, c)
    ensures Holds(sets, m, c)
  {
  }

  /** There is at most one choice. */
  lemma {:induction false} OneChoice(sets: seq<ReplicaSet>, n: nat, c: nat, d: nat)
    requires c < n <= |sets| && d < n && Holds(sets, n, c) && Holds(sets, n, d)
    ensures c == d
    decreases n, 1
  {
    if c < d {
      NoLaterChoice(sets, n, c, d);
    } else if d < c {
      NoLaterChoice(sets, n, d, c);
    }
  }

  lemma {:induction false} NoLaterChoice(sets: seq<ReplicaSet>, n: nat, c: nat, d: nat)
    requires c < d < n <= |sets| && Holds(sets, n, c)
    ensures !Holds(sets, n, d)
    decreases n, 0
  {
    HoldsEarlier(sets, d, n, c);
    if e :| 0 <= e < d && Holds(sets, d, e) && sets[d].createdAt > sets[e].createdAt {
      OneChoice(sets, d, c, e);
    }
  }

  /** The highest revision among the first n, or -1. */
  predicate IsHighest(sets: seq<ReplicaSet>, n: nat, highest: int)
    requires n <= |sets|
  {
    && highest >= -1
    && (forall j :: 0 <= j < n && sets[j].owned && sets[j].revision.Some? ==> sets[j].revision.value <= highest)
    && (highest >= 0 ==>
          exists j :: 0 <= j < n && sets[j].owned && sets[j].revision.Some? && sets[j].revision.value == highest)
  }

  /** What the loop knows after the first n: the choice it holds and the highest revision it has seen. */
  ghost predicate Chosen(sets: seq<ReplicaSet>, n: nat, newest: Option<nat>, highest: int)
    requires n <= |sets|
  {
    && IsHighest(sets, n, highest)
    && match newest
       case None => NothingChosen(sets, n)
       case Some(c) =>
         && c < n && Holds(sets, n, c)
         && (sets[c].revision.Some? ==> sets[c].revision.value == highest)
  }

  lemma SkipUnowned(sets: seq<ReplicaSet>, n: nat, newest: Option<nat>, highest: int)
    requires n < |sets| && !sets[n].owned && Chosen(sets, n, newest, highest)
    ensures Chosen(sets, n + 1, newest, highest)
    ensures AnotherServes(sets, n + 1, newest) <==> AnotherServes(sets, n, newest)
  {
  }

  lemma HigherIsRecord(sets: seq<ReplicaSet>, n: nat, highest: int)
    requires n < |sets| && sets[n].owned && sets[n].revision.Some? && IsHighest(sets, n, highest)
    ensures SetsRecord(sets, n) <==> sets[n].revision.value > highest
    ensures IsHighest(sets, n + 1, if sets[n].revision.value > highest then sets[n].revision.value else highest)
  {
    if highest >= 0 {
      var j :| 0 <= j < n && sets[j].owned && sets[j].revision.Some? && sets[j].revision.value == highest;
    }
  }

  lemma SeeRevision(sets: seq<ReplicaSet>, n: nat, newest: Option<nat>, highest: int)
    requires n < |sets| && sets[n].owned && sets[n].revision.Some? && Chosen(sets, n, newest, highest)
    ensures if sets[n].revision.value > highest then Chosen(sets, n + 1, Some(n), sets[n].revision.value)
            else Chosen(sets, n + 1, newest, highest)
  {
    HigherIsRecord(sets, n, highest);
  }

  lemma SeeNoRevision(sets: seq<ReplicaSet>, n: nat, newest: Option<nat>, highest: int)
    requires n < |sets| && sets[n].owned && sets[n].revision.None? && Chosen(sets, n, newest, highest)
    ensures if newest.None? || sets[n].createdAt > sets[newest.value].createdAt then Chosen(sets, n + 1, Some(n), highest)
            else Chosen(sets, n + 1, newest, highest)
  {
    assert IsHighest(sets, n + 1, highest);
  }

  lemma ChosenIsNewest(sets: seq<ReplicaSet>, newest: Option<nat>, highest: int)
    requires RevisionsParse(sets) && Chosen(sets, |sets|, newest, highest)
    ensures IsFirstNewest(sets, |sets|, newest)
  {
  }

  /**
   * The selection loop. In any order and with any annotations, the flag is set exactly when a serving
   * ReplicaSet other than the chosen one exists; with proper revisions the choice is the newest.
   */
  method SelectNewest(sets: seq<ReplicaSet>) returns (newest: Option<nat>, hasOtherHealthy: bool)
    ensures newest.Some? ==> newest.value < |sets| && Holds(sets, |sets|, newest.value)
    ensures newest.None? ==> NothingChosen(sets, |sets|)
    ensures hasOtherHealthy <==> AnotherServes(sets, |sets|, newest)
    ensures RevisionsParse(sets) ==> IsFirstNewest(sets, |sets|, newest)
  {
    newest, hasOtherHealthy := None, false;
    var maxRevision := -1;
    for i := 0 to |sets|
      invariant Chosen(sets, i, newest, maxRevision)
      invariant hasOtherHealthy <==> AnotherServes(sets, i, newest)
    {
      var rs := sets[i];
      ghost var had := newest;
      if !rs.owned {
        SkipUnowned(sets, i, newest, maxRevision);
        continue;
      }
      if rs.revision.None? {
        SeeNoRevision(sets, i, newest, maxRevision);
        if newest.None? || rs.createdAt > sets[newest.value].createdAt {
          if newest.Some? && sets[newest.value].availableReplicas > 0 {
            hasOtherHealthy := true;
          }
          newest := Some(i);
        } else if rs.availableReplicas > 0 {
          hasOtherHealthy := true;
        }
        OneMoreSeen(sets, i, had, newest);
        continue;
      }
      SeeRevision(sets, i, newest, maxRevision);
      if rs.revision.value > maxRevision {
        if newest.Some? && sets[newest.value].availableReplicas > 0 {
          hasOtherHealthy := true;
        }
        maxRevision := rs.revision.value;
        newest := Some(i);
      } else if rs.availableReplicas > 0 {
        hasOtherHealthy := true;
      }
      OneMoreSeen(sets, i, had, newest);
    }
    if RevisionsParse(sets) {
      ChosenIsNewest(sets, newest, maxRevision);
    }
  }

  /** Seeing one more ReplicaSet: either it becomes the choice or the choice stays. */
  lemma OneMoreSeen(sets: seq<ReplicaSet>, i: nat, had: Option<nat>, has: Option<nat>)
    requires i < |sets| && sets[i].owned && (had.Some? ==> had.value < i && sets[had.value].owned)
    requires has == had || has == Some(i)
    ensures AnotherServes(sets, i + 1, has) <==>
            || AnotherServes(sets, i, had)
            || (has == had && Serving(sets[i]))
            || (has != had && had.Some? && Serving(sets[had.value]))
  {
    if AnotherServes(sets, i, had) {
      var j :| 0 <= j < i && Serving(sets[j]) && had != Some(j);
      assert has != Some(j);
    }
    if has == had && Serving(sets[i]) {
      assert has != Some(i);
    }
    if has != had && had.Some? && Serving(sets[had.value]) {
      assert has != Some(had.value);
    }
    if AnotherServes(sets, i + 1, has) {
      var j :| 0 <= j < i + 1 && Serving(sets[j]) && has != Some(j);
      if j < i {
        assert had != Some(j) ==> AnotherServes(sets, i, had);
      }
    }
  }

  /** It is not the only one that serves traffic, and it is not at zero already; no count means one. */
  predicate MayGo(sets: seq<ReplicaSet>, c: nat)
    requires c < |sets|
  {
    (!Serving(sets[c]) || AnotherServes(sets, |sets|, Some(c))) && sets[c].replicas != Some(0)
  }

  /**
   * Scales the chosen ReplicaSet to zero exactly when it may go. Whatever served before, if anything did, some
   * ReplicaSet that serves is left as it was.
   */
  method ScaleDownFailing(sets: array<ReplicaSet>) returns (scaled: Option<nat>)
    modifies sets
    ensures scaled.Some? ==> scaled.value < sets.Length
    ensures forall c: nat :: c < sets.Length && Holds(old(sets[..]), sets.Length, c) ==>
              (scaled == Some(c) <==> MayGo(old(sets[..]), c))
    ensures scaled.Some? ==> Holds(old(sets[..]), sets.Length, scaled.value)
    ensures forall j :: 0 <= j < sets.Length ==>
              sets[j] == if scaled == Some(j) then old(sets[j]).(replicas := Some(0)) else old(sets[j])
    ensures (exists j :: 0 <= j < sets.Length && Serving(old(sets[j]))) ==>
            exists j :: 0 <= j < sets.Length && Serving(sets[j]) && sets[j] == old(sets[j])
    ensures scaled.Some? && RevisionsParse(old(sets[..])) ==> IsFirstNewest(old(sets[..]), sets.Length, scaled)
  {
    ghost var before := sets[..];
    var newest, hasOtherHealthy := SelectNewest(sets[..]);
    OnlyChoice(before, newest);
    if newest.None? {
      return None;
    }
    var rs := sets[newest.value];
    if rs.availableReplicas > 0 && !hasOtherHealthy {
      return None;
    }
    var current := if rs.replicas.Some? then rs.replicas.value else 1;
    if current == 0 {
      return None;
    }
    sets[newest.value] := rs.(replicas := Some(0));
    if exists j :: 0 <= j < |before| && Serving(before[j]) {
      ghost var j :| 0 <= j < |before| && Serving(before[j]);
      assert newest != Some(j) || hasOtherHealthy;
      assert AnotherServes(before, |before|, newest);
      ghost var k :| 0 <= k < |before| && Serving(before[k]) && newest != Some(k);
      assert sets[k] == before[k];
    }
    return newest;
  }

  lemma OnlyChoice(sets: seq<ReplicaSet>, newest: Option<nat>)
    requires newest.Some? ==> newest.value < |sets| && Holds(sets, |sets|, newest.value)
    requires newest.None? ==> NothingChosen(sets, |sets|)
    ensures forall c: nat :: c < |sets| && Holds(sets, |sets|, c) ==> newest == Some(c)
  {
    forall c: nat | c < |sets| && Holds(sets, |sets|, c)
      ensures newest == Some(c)
    {
      if newest.Some? {
        OneChoice(sets, |sets|, c, newest.value);
      }
    }
  }
}
