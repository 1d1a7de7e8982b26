/** Return annotations and the event types they produce. */
module Annotations {
  import opened Options

  /** A plain type, `None`, a union, or a list; a bare `typing.List` carries no element annotation. */
  datatype Hint = NoneType | Leaf(name: string) | Union(args: seq<Hint>) | ListOf(element: Hint) | BareList

  /** The plain types of the annotation, left to right, with repetitions. */
  function Leaves(hint: Hint): seq<string> {
    match hint
    case NoneType => []
    case Leaf(name) => [name]
    case Union(args) => LeavesOf(args)
    case ListOf(element) => Leaves(element)
    case BareList => []
  }

  function LeavesOf(args: seq<Hint>): seq<string> {
    if args == [] then [] else LeavesOf(args[..|args| - 1]) + Leaves(args[|args| - 1])
  }

  /** The plain types that are not inside a list, left to right, with repetitions. */
  function BareLeaves(hint: Hint): seq<string> {
    match hint
    case Leaf(name) => [name]
    case Union(args) => BareLeavesOf(args)
    case _ => []
  }

  function BareLeavesOf(args: seq<Hint>): seq<string> {
    if args == [] then [] else BareLeavesOf(args[..|args| - 1]) + BareLeaves(args[|args| - 1])
  }

  /** The plain types inside some list. */
  ghost predicate UnderList(hint: Hint, t: string) {
    match hint
    case Union(args) => exists k :: 0 <= k < |args| && UnderList(args[k], t)
    case ListOf(element) => t in Leaves(element)
    case _ => false
  }

  predicate IsFanOut(hint: Hint) {
    match hint
    case Union(args) => exists k :: 0 <= k < |args| && IsFanOut(args[k])
    case ListOf(_) => true
    case BareList => true
    case _ => false
  }

  // ----- the same by position -----

  /** What a path of union member positions leads to. */
  function MemberAt(hint: Hint, path: seq<nat>): Option<Hint> {
    if path == [] then Some(hint)
    else if hint.Union? && path[0] < |hint.args| then MemberAt(hint.args[path[0]], path[1..])
    else None
  }

  /** The same, where position 0 of a list is its element annotation. */
  function PartAt(hint: Hint, path: seq<nat>): Option<Hint> {
    if path == [] then Some(hint)
    else if hint.Union? && path[0] < |hint.args| then PartAt(hint.args[path[0]], path[1..])
    else if hint.ListOf? && path[0] == 0 then PartAt(hint.element, path[1..])
    else None
  }

  /** The path leads through unions to a list. */
  predicate ReachesList(hint: Hint, path: seq<nat>) {
    var found := MemberAt(hint, path);
    found.Some? && (found.value.ListOf? || found.value.BareList?)
  }

  lemma {:induction false} ListMakesFanOut(hint: Hint, path: seq<nat>)
    requires ReachesList(hint, path)
    ensures IsFanOut(hint)
    decreases |path|
  {
    if path != [] {
      ListMakesFanOut(hint.args[path[0]], path[1..]);
    }
  }

  lemma {:induction false} FanOutHasList(hint: Hint) returns (path: seq<nat>)
    requires IsFanOut(hint)
    ensures ReachesList(hint, path)
    decreases hint
  {
    path := [];
    if hint.Union? {
      var k: nat :| k < |hint.args| && IsFanOut(hint.args[k]);
      var rest := FanOutHasList(hint.args[k]);
      path := [k] + rest;
      assert path[1..] == rest;
    }
  }

  /** An annotation fans out exactly when unions lead from it to a list. */
  lemma FanOutExactly(hint: Hint)
    ensures IsFanOut(hint) <==> exists path :: ReachesList(hint, path)
  {
    if IsFanOut(hint) {
      var path := FanOutHasList(hint);
    }
    if path :| ReachesList(hint, path) {
      ListMakesFanOut(hint, path);
    }
  }

  /** So an annotation without lists is ordinary. */
  lemma WithoutListsIsOrdinary(hint: Hint)
    requires forall path :: PartAt(hint, path).Some? ==> !PartAt(hint, path).value.ListOf? && !PartAt(hint, path).value.BareList?
    ensures !IsFanOut(hint)
  {
    if IsFanOut(hint) {
      var path := FanOutHasList(hint);
      MemberIsPart(hint, path);
    }
  }

  lemma {:induction false} MemberIsPart(hint: Hint, path: seq<nat>)
    requires MemberAt(hint, path).Some?
    ensures PartAt(hint, path) == MemberAt(hint, path)
    decreases |path|
  {
    if path != [] {
      MemberIsPart(hint.args[path[0]], path[1..]);
    }
  }

  /** Members are flattened in their order. */
  lemma {:induction false} LeavesInOrder(a: seq<Hint>, b: seq<Hint>)
    ensures LeavesOf(a + b) == LeavesOf(a) + LeavesOf(b)
    decreases |b|
  {
    if b == [] {
      assert a + b == a;
    } else {
      var most, last := b[..|b| - 1], b[|b| - 1];
      LeavesInOrder(a, most);
      assert a + b == (a + most) + [last] && b == most + [last];
      calc {
        LeavesOf((a + most) + [last]);
        { LastLeaves(a + most, last); }
        (LeavesOf(a) + LeavesOf(most)) + Leaves(last);
        LeavesOf(a) + (LeavesOf(most) + Leaves(last));
        { LastLeaves(most, last); }
        LeavesOf(a) + LeavesOf(most + [last]);
      }
    }
  }

  lemma LastLeaves(most: seq<Hint>, last: Hint)
    ensures LeavesOf(most + [last]) == LeavesOf(most) + Leaves(last)
    ensures BareLeavesOf(most + [last]) == BareLeavesOf(most) + BareLeaves(last)
  {
    assert (most + [last])[..|most|] == most;
  }

  lemma {:induction false} BareLeavesInOrder(a: seq<Hint>, b: seq<Hint>)
    ensures BareLeavesOf(a + b) == BareLeavesOf(a) + BareLeavesOf(b)
    decreases |b|
  {
    if b == [] {
      assert a + b == a;
    } else {
      var most, last := b[..|b| - 1], b[|b| - 1];
      BareLeavesInOrder(a, most);
      assert a + b == (a + most) + [last] && b == most + [last];
      calc {
        BareLeavesOf((a + most) + [last]);
        { LastLeaves(a + most, last); }
        (BareLeavesOf(a) + BareLeavesOf(most)) + BareLeaves(last);
        BareLeavesOf(a) + (BareLeavesOf(most) + BareLeaves(last));
        { LastLeaves(most, last); }
        BareLeavesOf(a) + BareLeavesOf(most + [last]);
      }
    }
  }

  lemma {:induction false} LeafHasPosition(hint: Hint, t: string) returns (path: seq<nat>)
    requires t in Leaves(hint)
    ensures PartAt(hint, path) == Some(Leaf(t))
    decreases hint
  {
    path := [];
    match hint
    case Union(args) =>
      InSomeMember(args, t);
      var k: nat :| k < |args| && t in Leaves(args[k]);
      var rest := LeafHasPosition(args[k], t);
      path := [k] + rest;
      assert path[1..] == rest;
    case ListOf(element) =>
      var rest := LeafHasPosition(element, t);
      path := [0] + rest;
      assert path[1..] == rest;
    case _ =>
  }

  lemma {:induction false} PositionIsLeaf(hint: Hint, t: string, path: seq<nat>)
    requires PartAt(hint, path) == Some(Leaf(t))
    ensures t in Leaves(hint)
    decreases |path|
  {
    if path != [] {
      PositionIsLeaf(if hint.Union? then hint.args[path[0]] else hint.element, t, path[1..]);
      if hint.Union? {
        InSomeMember(hint.args, t);
      }
    }
  }

  lemma {:induction false} BareLeafHasPosition(hint: Hint, t: string) returns (path: seq<nat>)
    requires t in BareLeaves(hint)
    ensures MemberAt(hint, path) == Some(Leaf(t))
    decreases hint
  {
    path := [];
    if hint.Union? {
      BareInSomeMember(hint.args, t);
      var k: nat :| k < |hint.args| && t in BareLeaves(hint.args[k]);
      var rest := BareLeafHasPosition(hint.args[k], t);
      path := [k] + rest;
      assert path[1..] == rest;
    }
  }

  lemma {:induction false} PositionIsBareLeaf(hint: Hint, t: string, path: seq<nat>)
    requires MemberAt(hint, path) == Some(Leaf(t))
    ensures t in BareLeaves(hint)
    decreases |path|
  {
    if path != [] {
      PositionIsBareLeaf(hint.args[path[0]], t, path[1..]);
      BareInSomeMember(hint.args, t);
    }
  }

  /** A type is produced exactly when it stands somewhere in the annotation, and bare when no list is around it. */
  lemma ProducedExactly(hint: Hint, t: string)
    ensures t in Leaves(hint) <==> exists path :: PartAt(hint, path) == Some(Leaf(t))
    ensures t in BareLeaves(hint) <==> exists path :: MemberAt(hint, path) == Some(Leaf(t))
  {
    if t in Leaves(hint) {
      var path := LeafHasPosition(hint, t);
    }
    if t in BareLeaves(hint) {
      var path := BareLeafHasPosition(hint, t);
    }
    if path :| PartAt(hint, path) == Some(Leaf(t)) {
      PositionIsLeaf(hint, t, path);
    }
    if path :| MemberAt(hint, path) == Some(Leaf(t)) {
      PositionIsBareLeaf(hint, t, path);
    }
  }

  // ----- first occurrences -----

  function AddNew(seen: seq<string>, t: string): seq<string> { if t in seen then seen else seen + [t] }

  function AddAllNew(seen: seq<string>, ts: seq<string>): seq<string> {
    if ts == [] then seen else AddNew(AddAllNew(seen, ts[..|ts| - 1]), ts[|ts| - 1])
  }

  /** The sequence with every repetition of an earlier element left out. */
  function FirstOccurrences(ts: seq<string>): seq<string> {
    if ts == [] then []
    else
      var before, last := ts[..|ts| - 1], ts[|ts| - 1];
      if last in before then FirstOccurrences(before) else FirstOccurrences(before) + [last]
  }

  lemma {:induction false} SameElements(ts: seq<string>)
    ensures forall t :: t in FirstOccurrences(ts) <==> t in ts
    ensures forall i, j :: 0 <= i < j < |FirstOccurrences(ts)| ==> FirstOccurrences(ts)[i] != FirstOccurrences(ts)[j]
  {
    if ts != [] {
      SameElements(ts[..|ts| - 1]);
      assert ts == ts[..|ts| - 1] + [ts[|ts| - 1]];
    }
  }

  /** An element that first occurs before another comes before it. */
  lemma {:induction false} FirstComesFirst(ts: seq<string>, i: nat, j: nat) returns (a: nat, b: nat)
    requires i < j < |ts| && ts[i] !in ts[..i] && ts[j] !in ts[..j]
    ensures a < b < |FirstOccurrences(ts)| && FirstOccurrences(ts)[a] == ts[i] && FirstOccurrences(ts)[b] == ts[j]
    decreases |ts|
  {
    var before := ts[..|ts| - 1];
    assert before[..i] == ts[..i];
    if j < |before| {
      assert before[..j] == ts[..j];
      a, b := FirstComesFirst(before, i, j);
    } else {
      SameElements(before);
      assert ts[i] == before[i] && ts[i] in before;
      a :| a < |FirstOccurrences(before)| && FirstOccurrences(before)[a] == ts[i];
      b := |FirstOccurrences(before)|;
    }
  }

  /** Adding the new elements of `more` to the first occurrences of `ts` gives those of both together. */
  lemma {:induction false} AddingContinues(ts: seq<string>, more: seq<string>)
    ensures AddAllNew(FirstOccurrences(ts), more) == FirstOccurrences(ts + more)
    decreases |more|
  {
    if more == [] {
      assert ts + more == ts;
    } else {
      var before, last := more[..|more| - 1], more[|more| - 1];
      AddingContinues(ts, before);
      assert (ts + more)[..|ts + more| - 1] == ts + before;
      SameElements(ts + before);
    }
  }

  /** Repetitions within `more` do not matter. */
  lemma {:induction false} AddingFirstOccurrences(ts: seq<string>, more: seq<string>)
    ensures AddAllNew(FirstOccurrences(ts), FirstOccurrences(more)) == AddAllNew(FirstOccurrences(ts), more)
    decreases |more|
  {
    if more != [] {
      var before, last := more[..|more| - 1], more[|more| - 1];
      AddingFirstOccurrences(ts, before);
      AddingContinues(ts, before);
      SameElements(ts + before);
      if last !in before {
        var fewer := FirstOccurrences(before);
        assert (fewer + [last])[..|fewer|] == fewer;
      }
    }
  }

  /** The flatteners' two nested loops: the members' results, each element only once. */
  lemma AddMember(ts: seq<string>, more: seq<string>)
    ensures AddAllNew(FirstOccurrences(ts), FirstOccurrences(more)) == FirstOccurrences(ts + more)
  {
    AddingFirstOccurrences(ts, more);
    AddingContinues(ts, more);
  }

  method Extend(seen: seq<string>, ts: seq<string>) returns (result: seq<string>)
    ensures result == AddAllNew(seen, ts)
  {
    result := seen;
    for k := 0 to |ts|
      invariant result == AddAllNew(seen, ts[..k])
    {
      assert ts[..k + 1][..k] == ts[..k];
      if ts[k] !in result {
        result := result + [ts[k]];
      }
    }
    assert ts[..|ts|] == ts;
  }

  // ----- the flatteners -----

  lemma NextMember(args: seq<Hint>, k: nat)
    requires k < |args|
    ensures AddAllNew(FirstOccurrences(LeavesOf(args[..k])), FirstOccurrences(Leaves(args[k]))) ==
            FirstOccurrences(LeavesOf(args[..k + 1]))
  {
    assert args[..k + 1] == args[..k] + [args[k]];
    LastLeaves(args[..k], args[k]);
    AddMember(LeavesOf(args[..k]), Leaves(args[k]));
  }

  lemma NextBareMember(args: seq<Hint>, k: nat)
    requires k < |args|
    ensures AddAllNew(FirstOccurrences(BareLeavesOf(args[..k])), FirstOccurrences(BareLeaves(args[k]))) ==
            FirstOccurrences(BareLeavesOf(args[..k + 1]))
  {
    assert args[..k + 1] == args[..k] + [args[k]];
    LastLeaves(args[..k], args[k]);
    AddMember(BareLeavesOf(args[..k]), BareLeaves(args[k]));
  }

  lemma OneLeaf(name: string)
    ensures FirstOccurrences([name]) == [name]
  {
    assert [name][..0] == [];
  }

  /** Flattening gives the first occurrences of the plain types, in order. */
  method FlattenReturnAnnotation(hint: Hint) returns (result: seq<string>)
    ensures result == FirstOccurrences(Leaves(hint))
    decreases hint
  {
    match hint
    case NoneType => return [];
    case Union(args) =>
      result := [];
      for k := 0 to |args|
        invariant result == FirstOccurrences(LeavesOf(args[..k]))
      {
        var member := FlattenReturnAnnotation(args[k]);
        NextMember(args, k);
        result := Extend(result, member);
      }
      assert args[..|args|] == args;
    case ListOf(element) => result := FlattenReturnAnnotation(element);
    case BareList => return [];
    case Leaf(name) =>
      OneLeaf(name);
      return [name];
  }

  /** The bare members are the first occurrences of the plain types outside lists. */
  method FlattenBareMembers(hint: Hint) returns (result: seq<string>)
    ensures result == FirstOccurrences(BareLeaves(hint))
    decreases hint
  {
    match hint
    case Union(args) =>
      result := [];
      for k := 0 to |args|
        invariant result == FirstOccurrences(BareLeavesOf(args[..k]))
      {
        var member := FlattenBareMembers(args[k]);
        NextBareMember(args, k);
        result := Extend(result, member);
      }
      assert args[..|args|] == args;
    case Leaf(name) =>
      OneLeaf(name);
      return [name];
    case _ => return [];
  }

  // ----- how the two relate -----

  ghost predicate ProducedBySome(args: seq<Hint>, t: string) {
    exists k :: 0 <= k < |args| && t in Leaves(args[k])
  }

  ghost predicate BareInSome(args: seq<Hint>, t: string) {
    exists k :: 0 <= k < |args| && t in BareLeaves(args[k])
  }

  lemma {:induction false} InSomeMember(args: seq<Hint>, t: string)
    ensures t in LeavesOf(args) <==> ProducedBySome(args, t)
    decreases |args|
  {
    if args != [] {
      var before := args[..|args| - 1];
      InSomeMember(before, t);
      assert forall k :: 0 <= k < |before| ==> before[k] == args[k];
    }
  }

  lemma {:induction false} BareInSomeMember(args: seq<Hint>, t: string)
    ensures t in BareLeavesOf(args) <==> BareInSome(args, t)
    decreases |args|
  {
    if args != [] {
      var before := args[..|args| - 1];
      BareInSomeMember(before, t);
      assert forall k :: 0 <= k < |before| ==> before[k] == args[k];
    }
  }

  /** A produced type is a bare member, or it lies under a list, or both; nothing else is produced. */
  lemma {:induction false} BareOrUnderList(hint: Hint, t: string)
    ensures t in Leaves(hint) <==> t in BareLeaves(hint) || UnderList(hint, t)
    decreases hint
  {
    if hint.Union? {
      InSomeMember(hint.args, t);
      BareInSomeMember(hint.args, t);
      forall k | 0 <= k < |hint.args|
        ensures t in Leaves(hint.args[k]) <==> t in BareLeaves(hint.args[k]) || UnderList(hint.args[k], t)
      {
        BareOrUnderList(hint.args[k], t);
      }
    }
  }

  /** An annotation that does not fan out has no lists: its bare members are all it produces, in order. */
  lemma {:induction false} OrdinaryIsBare(hint: Hint)
    requires !IsFanOut(hint)
    ensures BareLeaves(hint) == Leaves(hint)
    ensures FirstOccurrences(BareLeaves(hint)) == FirstOccurrences(Leaves(hint))
    decreases hint
  {
    if hint.Union? {
      AllOrdinaryAreBare(hint, hint.args);
    }
  }

  lemma {:induction false} AllOrdinaryAreBare(hint: Hint, args: seq<Hint>)
    requires forall k :: 0 <= k < |args| ==> args[k] < hint && !IsFanOut(args[k])
    ensures BareLeavesOf(args) == LeavesOf(args)
    decreases hint, |args|
  {
    if args != [] {
      AllOrdinaryAreBare(hint, args[..|args| - 1]);
      OrdinaryIsBare(args[|args| - 1]);
    }
  }

  /** As reported: bare members are among the flattened types, and what is not bare lies under a list. */
  lemma BareMembersAmongFlattened(hint: Hint)
    ensures forall t :: t in FirstOccurrences(BareLeaves(hint)) ==> t in FirstOccurrences(Leaves(hint))
    ensures forall t :: t in FirstOccurrences(Leaves(hint)) && t !in FirstOccurrences(BareLeaves(hint)) ==> UnderList(hint, t)
    ensures (exists t :: UnderList(hint, t)) ==> IsFanOut(hint)
  {
    SameElements(Leaves(hint));
    SameElements(BareLeaves(hint));
    forall t
      ensures t in Leaves(hint) <==> t in BareLeaves(hint) || UnderList(hint, t)
    {
      BareOrUnderList(hint, t);
    }
    if t :| UnderList(hint, t) {
      UnderListFansOut(hint, t);
    }
  }

  lemma {:induction false} UnderListFansOut(hint: Hint, t: string)
    requires UnderList(hint, t)
    ensures IsFanOut(hint)
    decreases hint
  {
    if hint.Union? {
      var k :| 0 <= k < |hint.args| && UnderList(hint.args[k], t);
      UnderListFansOut(hint.args[k], t);
    }
  }
}
