/**
 * What the guard costs. Without a guard, what each fan-out step surfaces is the least solution of a system of
 * equations, one per step. The guarded traversal never reports more than that; it reports exactly that when no
 * fan-out step feeds itself through the level it opens, and can report less when one does.
 */
module Guards {
  import opened Options
  import opened Matching
  import opened StreamLevels

  /** For each step, the types taken to surface when it fans out. */
  type Surfacing = map<string, set<Ty>>

  ghost predicate WellTyped(w: Workflow, o: Surfacing) {
    o.Keys == w.steps.Keys && forall name :: name in o ==> o[name] <= Returned(w)
  }

  ghost function AddsWith(w: Workflow, o: Surfacing, t: Ty, name: string): (r: set<Ty>)
    requires WellTyped(w, o) && name in w.steps
    ensures r <= Returned(w)
  {
    var step := w.steps[name];
    if !AcceptsType(w, t, step.accepts, step.acceptsSubclasses) || step.collects.Some? then {}
    else if step.fanOut then o[name] else EventTypes(w, step.emits)
  }

  ghost predicate ClosedWith(w: Workflow, o: Surfacing, level: set<Ty>)
    requires WellTyped(w, o)
  {
    forall t, name :: t in level && name in w.steps ==> AddsWith(w, o, t, name) <= level
  }

  ghost function LevelWith(w: Workflow, o: Surfacing, seeds: set<Ty>): set<Ty>
    requires WellTyped(w, o)
  {
    set t | t in seeds + Returned(w) && forall level: set<Ty> :: seeds <= level && ClosedWith(w, o, level) ==> t in level
  }

  lemma LevelWithIsClosed(w: Workflow, o: Surfacing, seeds: set<Ty>)
    requires WellTyped(w, o)
    ensures seeds <= LevelWith(w, o, seeds) && ClosedWith(w, o, LevelWith(w, o, seeds))
  {
    var level := LevelWith(w, o, seeds);
    forall t, name, u | t in level && name in w.steps && u in AddsWith(w, o, t, name)
      ensures u in level
    {
      forall other: set<Ty> | seeds <= other && ClosedWith(w, o, other)
        ensures u in other
      {
        assert t in other;
      }
    }
  }

  lemma LevelWithIsLeast(w: Workflow, o: Surfacing, seeds: set<Ty>, level: set<Ty>)
    requires WellTyped(w, o) && seeds <= level && ClosedWith(w, o, level)
    ensures LevelWith(w, o, seeds) <= level
  {
  }

  ghost function ChildWith(w: Workflow, o: Surfacing, producer: string): set<Ty>
    requires WellTyped(w, o) && producer in w.steps
  {
    LevelWith(w, o, EventTypes(w, w.steps[producer].emits))
  }

  ghost function GivesBackWith(w: Workflow, o: Surfacing, c: string): set<Ty>
    requires WellTyped(w, o) && c in w.steps
  {
    if w.steps[c].fanOut then o[c] else EventTypes(w, w.steps[c].emits)
  }

  /** Every step surfaces what the collect steps bound to its child level give back. */
  ghost predicate Solution(w: Workflow, o: Surfacing) {
    && WellTyped(w, o)
    && forall p, c :: p in w.steps && c in w.steps && Binds(w, c, ChildWith(w, o, p)) ==> GivesBackWith(w, o, c) <= o[p]
  }

  // ----- the least solution -----

  ghost function Ideal(w: Workflow): (o: Surfacing)
    ensures WellTyped(w, o)
  {
    map p | p in w.steps :: set t | t in Returned(w) && forall o: Surfacing :: Solution(w, o) ==> t in o[p]
  }

  ghost predicate Below(w: Workflow, a: Surfacing, b: Surfacing)
    requires WellTyped(w, a) && WellTyped(w, b)
  {
    forall p :: p in w.steps ==> a[p] <= b[p]
  }

  lemma IdealIsBelow(w: Workflow, o: Surfacing)
    requires Solution(w, o)
    ensures Below(w, Ideal(w), o)
  {
  }

  lemma LevelWithMonotone(w: Workflow, a: Surfacing, b: Surfacing, seeds: set<Ty>)
    requires WellTyped(w, a) && WellTyped(w, b) && Below(w, a, b)
    ensures LevelWith(w, a, seeds) <= LevelWith(w, b, seeds)
  {
    var level := LevelWith(w, b, seeds);
    LevelWithIsClosed(w, b, seeds);
    forall t, name | t in level && name in w.steps
      ensures AddsWith(w, a, t, name) <= level
    {
      assert AddsWith(w, a, t, name) <= AddsWith(w, b, t, name);
    }
    LevelWithIsLeast(w, a, seeds, level);
  }

  lemma BindsMore(w: Workflow, c: string, level: set<Ty>, more: set<Ty>)
    requires c in w.steps && level <= more && Binds(w, c, level)
    ensures Binds(w, c, more)
  {
  }

  lemma IdealIsSolution(w: Workflow)
    ensures Solution(w, Ideal(w))
  {
    var ideal := Ideal(w);
    forall p, c, t | p in w.steps && c in w.steps && Binds(w, c, ChildWith(w, ideal, p)) && t in GivesBackWith(w, ideal, c)
      ensures t in ideal[p]
    {
      forall o: Surfacing | Solution(w, o)
        ensures t in o[p]
      {
        IdealIsBelow(w, o);
        LevelWithMonotone(w, ideal, o, EventTypes(w, w.steps[p].emits));
        BindsMore(w, c, ChildWith(w, ideal, p), ChildWith(w, o, p));
        assert GivesBackWith(w, o, c) <= o[p];
      }
    }
  }

  /** What the collect steps bound to p's child level give back. */
  ghost function Surfaced(w: Workflow, o: Surfacing, p: string): (r: set<Ty>)
    requires WellTyped(w, o) && p in w.steps
    ensures r <= Returned(w)
  {
    set c, t | c in w.steps && Binds(w, c, ChildWith(w, o, p)) && t in GivesBackWith(w, o, c) :: t
  }

  lemma SurfacedMonotone(w: Workflow, a: Surfacing, b: Surfacing, p: string)
    requires WellTyped(w, a) && WellTyped(w, b) && Below(w, a, b) && p in w.steps
    ensures Surfaced(w, a, p) <= Surfaced(w, b, p)
  {
    LevelWithMonotone(w, a, b, EventTypes(w, w.steps[p].emits));
    forall c, t | c in w.steps && Binds(w, c, ChildWith(w, a, p)) && t in GivesBackWith(w, a, c)
      ensures t in Surfaced(w, b, p)
    {
      BindsMore(w, c, ChildWith(w, a, p), ChildWith(w, b, p));
      assert t in GivesBackWith(w, b, c);
    }
  }

  lemma SurfacedIsEnough(w: Workflow, o: Surfacing)
    requires WellTyped(w, o) && forall p :: p in w.steps ==> Surfaced(w, o, p) <= o[p]
    ensures Solution(w, o)
  {
    forall p, c, t | p in w.steps && c in w.steps && Binds(w, c, ChildWith(w, o, p)) && t in GivesBackWith(w, o, c)
      ensures t in o[p]
    {
      assert t in Surfaced(w, o, p);
    }
  }

  /** The least solution meets the equations as equations. */
  lemma IdealMeetsEquations(w: Workflow)
    ensures forall p :: p in w.steps ==> Ideal(w)[p] == Surfaced(w, Ideal(w), p)
  {
    var ideal := Ideal(w);
    IdealIsSolution(w);
    var o: Surfacing := map p | p in w.steps :: Surfaced(w, ideal, p);
    assert Below(w, o, ideal);
    forall p | p in w.steps
      ensures Surfaced(w, o, p) <= o[p]
    {
      SurfacedMonotone(w, o, ideal, p);
    }
    SurfacedIsEnough(w, o);
    IdealIsBelow(w, o);
  }

  // ----- the guarded traversal never reports more -----

  lemma AddsIsSound(w: Workflow, o: Surfacing, guard: set<string>, t: Ty, name: string)
    requires Solution(w, o) && name in w.steps
    decreases Outside(w, guard), 0, 0, 0
    ensures Adds(w, guard, t, name) <= AddsWith(w, o, t, name)
  {
    if w.steps[name].fanOut && name !in guard {
      GuardingShrinks(w, guard, name);
      CollapseIsSound(w, o, name, guard);
    }
  }

  lemma LevelIsSound(w: Workflow, o: Surfacing, seeds: set<Ty>, guard: set<string>)
    requires Solution(w, o)
    decreases Outside(w, guard), 0, 0, 1
    ensures Level(w, seeds, guard) <= LevelWith(w, o, seeds)
  {
    var level := LevelWith(w, o, seeds);
    LevelWithIsClosed(w, o, seeds);
    forall t, name | t in level && name in w.steps
      ensures Adds(w, guard, t, name) <= level
    {
      AddsIsSound(w, o, guard, t, name);
      assert AddsWith(w, o, t, name) <= level;
    }
    LevelIsLeast(w, seeds, guard, level);
  }

  lemma GivesBackIsSound(w: Workflow, o: Surfacing, c: string, guard: set<string>)
    requires Solution(w, o) && c in w.steps
    decreases if c in guard then 0 else Outside(w, guard + {c}), 1, Outside(w, guard), 0
    ensures GivesBack(w, c, guard) <= GivesBackWith(w, o, c)
  {
    if w.steps[c].fanOut && c !in guard {
      GuardedTwice(w, guard, c);
      CollapseIsSound(w, o, c, guard + {c});
    }
  }

  lemma CollapseIsSound(w: Workflow, o: Surfacing, producer: string, guard: set<string>)
    requires Solution(w, o) && producer in w.steps
    decreases Outside(w, guard + {producer}), 1, Outside(w, guard), 1
    ensures Collapse(w, producer, guard) <= o[producer]
  {
    var emitted := EventTypes(w, w.steps[producer].emits);
    LevelIsSound(w, o, emitted, guard + {producer});
    var child := Level(w, emitted, guard + {producer});
    NewGuardIsTightest(w, guard, producer);
    forall c | c in w.steps && Binds(w, c, child)
      ensures GivesBack(w, c, guard) <= o[producer]
    {
      BindsMore(w, c, child, ChildWith(w, o, producer));
      GivesBackIsSound(w, o, c, guard);
    }
  }

  // ----- and reports everything when nothing feeds itself -----

  /** The fan-out step q is triggered by, or collects from, the level that p opens. */
  ghost predicate Feeds(w: Workflow, p: string, q: string)
    requires p in w.steps && q in w.steps
  {
    var child, step := ChildWith(w, Ideal(w), p), w.steps[q];
    && step.fanOut
    && (Binds(w, q, child) ||
        (step.collects.None? && exists t :: t in child && AcceptsType(w, t, step.accepts, step.acceptsSubclasses)))
  }

  /** The ranks show that no chain of feeding comes back to where it started. */
  ghost predicate Ranked(w: Workflow, rank: map<string, nat>) {
    && rank.Keys == w.steps.Keys
    && forall p, q :: p in w.steps && q in w.steps && Feeds(w, p, q) ==> rank[q] < rank[p]
  }

  /** The guard holds nothing that p could still feed. */
  ghost predicate Above(rank: map<string, nat>, guard: set<string>, p: string)
    requires p in rank
  {
    forall q :: q in guard && q in rank ==> rank[p] <= rank[q]
  }

  lemma ChildIsComplete(w: Workflow, rank: map<string, nat>, p: string, guard: set<string>)
    requires Ranked(w, rank) && p in w.steps && Above(rank, guard, p)
    decreases rank[p], 0
    ensures ChildWith(w, Ideal(w), p) <= Level(w, EventTypes(w, w.steps[p].emits), guard + {p})
  {
    var ideal, seeds := Ideal(w), EventTypes(w, w.steps[p].emits);
    var child, level := ChildWith(w, ideal, p), Level(w, seeds, guard + {p});
    LevelWithIsClosed(w, ideal, seeds);
    LevelIsClosed(w, seeds, guard + {p});
    forall t, name | t in child * level && name in w.steps
      ensures AddsWith(w, ideal, t, name) <= child * level
    {
      assert AddsWith(w, ideal, t, name) <= child;
      var step := w.steps[name];
      if step.fanOut && step.collects.None? && AcceptsType(w, t, step.accepts, step.acceptsSubclasses) {
        assert Feeds(w, p, name);
        CollapseIsComplete(w, rank, name, guard + {p});
      }
      assert AddsWith(w, ideal, t, name) <= Adds(w, guard + {p}, t, name);
    }
    LevelWithIsLeast(w, ideal, seeds, child * level);
  }

  /** Whatever a collect step bound to p's level gives back by the equations, it gives back under the guard. */
  lemma GivesBackIsComplete(w: Workflow, rank: map<string, nat>, p: string, guard: set<string>, c: string)
    requires Ranked(w, rank) && p in w.steps && Above(rank, guard, p)
    requires c in w.steps && Binds(w, c, ChildWith(w, Ideal(w), p))
    decreases rank[p], 1
    ensures GivesBackWith(w, Ideal(w), c) <= GivesBack(w, c, guard)
  {
    if w.steps[c].fanOut {
      assert Feeds(w, p, c);
      CollapseIsComplete(w, rank, c, guard + {c});
    }
  }

  lemma CollapseIsComplete(w: Workflow, rank: map<string, nat>, p: string, guard: set<string>)
    requires Ranked(w, rank) && p in w.steps && Above(rank, guard, p)
    decreases rank[p], 2
    ensures Ideal(w)[p] <= Collapse(w, p, guard)
  {
    var ideal := Ideal(w);
    var child := Level(w, EventTypes(w, w.steps[p].emits), guard + {p});
    IdealMeetsEquations(w);
    ChildIsComplete(w, rank, p, guard);
    forall c | c in w.steps && Binds(w, c, ChildWith(w, ideal, p))
      ensures Binds(w, c, child) && GivesBackWith(w, ideal, c) <= GivesBack(w, c, guard)
    {
      BindsMore(w, c, ChildWith(w, ideal, p), child);
      GivesBackIsComplete(w, rank, p, guard, c);
    }
  }

  /** The level that the traversal reports for a producer, guarded by its own name. */
  lemma ProducerLevelIsExact(w: Workflow, rank: map<string, nat>, p: string)
    requires Ranked(w, rank) && p in w.steps
    ensures Level(w, EventTypes(w, w.steps[p].emits), {p}) == ChildWith(w, Ideal(w), p)
  {
    IdealIsSolution(w);
    LevelIsSound(w, Ideal(w), EventTypes(w, w.steps[p].emits), {p});
    ChildIsComplete(w, rank, p, {});
    assert {} + {p} == {p};
  }

  lemma CollapseIsExact(w: Workflow, rank: map<string, nat>, p: string)
    requires Ranked(w, rank) && p in w.steps
    ensures Collapse(w, p, {}) == Ideal(w)[p]
  {
    IdealIsSolution(w);
    CollapseIsSound(w, Ideal(w), p, {});
    CollapseIsComplete(w, rank, p, {});
  }

  lemma SeededLevelIsExact(w: Workflow, rank: map<string, nat>, seeds: set<Ty>)
    requires Ranked(w, rank)
    ensures Level(w, seeds, {}) == LevelWith(w, Ideal(w), seeds)
  {
    var ideal, level := Ideal(w), Level(w, seeds, {});
    IdealIsSolution(w);
    LevelIsSound(w, ideal, seeds, {});
    LevelIsClosed(w, seeds, {});
    forall t, name | t in level && name in w.steps
      ensures AddsWith(w, ideal, t, name) <= level
    {
      CollapseIsExact(w, rank, name);
      assert Adds(w, {}, t, name) <= level;
    }
    LevelWithIsLeast(w, ideal, seeds, level);
  }

  /** Without self-feeding the traversal computes exactly the unguarded meaning. */
  lemma UnfedTraversalIsExact(w: Workflow, rank: map<string, nat>, seeds: set<Ty>)
    requires Ranked(w, rank)
    ensures forall p :: p in w.steps ==> Collapse(w, p, {}) == Ideal(w)[p]
    ensures forall p :: p in w.steps ==>
              Level(w, EventTypes(w, w.steps[p].emits), {p}) == ChildWith(w, Ideal(w), p)
    ensures Level(w, seeds, {}) == LevelWith(w, Ideal(w), seeds)
  {
    forall p | p in w.steps
      ensures Collapse(w, p, {}) == Ideal(w)[p]
      ensures Level(w, EventTypes(w, w.steps[p].emits), {p}) == ChildWith(w, Ideal(w), p)
    {
      CollapseIsExact(w, rank, p);
      ProducerLevelIsExact(w, rank, p);
    }
    SeededLevelIsExact(w, rank, seeds);
  }

  /** What the traversal reports, with nothing guarded at the start, for every step. */
  ghost function Reported(w: Workflow): (o: Surfacing)
    ensures WellTyped(w, o)
  {
    map p | p in w.steps :: Collapse(w, p, {})
  }

  /** The traversal is exact if and only if one more round of the equations adds nothing to its report. */
  lemma ReportIsExactExactly(w: Workflow)
    ensures Reported(w) == Ideal(w) <==> Solution(w, Reported(w))
  {
    IdealIsSolution(w);
    if Solution(w, Reported(w)) {
      IdealIsBelow(w, Reported(w));
      forall p | p in w.steps
        ensures Reported(w)[p] == Ideal(w)[p]
      {
        CollapseIsSound(w, Ideal(w), p, {});
      }
    }
  }

  // ----- workflows in which the guard loses a type -----

  datatype Cast = Cast(
    p: string, again: string, collectA: string, next: string, collectZ: string, A: Ty, X: Ty, Y: Ty, Z: Ty, W: Ty)

  /**
   * "p" emits A, an ordinary step turns A into X, and X triggers "p" again, inside its own level. What that
   * inner run surfaces, Y, would lead to Z and so to the collect step that returns W.
   */
  ghost predicate SelfFeeding(w: Workflow, n: Cast) {
    && n.A != n.X && n.A != n.Y && n.A != n.Z && n.X != n.Y && n.X != n.Z && n.Y != n.Z && n.W != n.Y
    && w.steps.Keys == {n.p, n.again, n.collectA, n.next, n.collectZ}
    && w.steps[n.p] == Step([n.X], None, [n.A], true, false)
    && w.steps[n.again] == Step([n.A], None, [n.X], false, false)
    && w.steps[n.collectA] == Step([n.A], Some([n.A]), [n.Y], false, false)
    && w.steps[n.next] == Step([n.Y], None, [n.Z], false, false)
    && w.steps[n.collectZ] == Step([n.Z], Some([n.Z]), [n.W], false, false)
    && forall t :: w.isEvent(t)
  }

  lemma AcceptsOne(w: Workflow, t: Ty, u: Ty)
    ensures AcceptsType(w, t, [u], false) <==> t == u
  {
    if t == u {
      assert TypeMatches(w, t, [u][0], false);
    }
  }

  lemma EmitsOne(w: Workflow, t: Ty)
    requires w.isEvent(t)
    ensures EventTypes(w, [t]) == {t}
  {
  }

  lemma InnerLevel(w: Workflow, n: Cast)
    requires SelfFeeding(w, n)
    ensures Level(w, {n.A}, {n.p}) <= {n.A, n.X}
  {
    var level := {n.A, n.X};
    EmitsOne(w, n.X);
    forall t, name | t in level && name in w.steps
      ensures Adds(w, {n.p}, t, name) <= level
    {
      AcceptsOne(w, t, n.A);
      AcceptsOne(w, t, n.X);
      AcceptsOne(w, t, n.Y);
    }
    LevelIsLeast(w, {n.A}, {n.p}, level);
  }

  lemma GuardedMissesW(w: Workflow, n: Cast)
    requires SelfFeeding(w, n)
    ensures Collapse(w, n.p, {}) <= {n.Y}
  {
    InnerLevel(w, n);
    EmitsOne(w, n.A);
    EmitsOne(w, n.Y);
    assert {} + {n.p} == {n.p};
    var child := Level(w, {n.A}, {n.p});
    forall c, t | c in w.steps && Binds(w, c, child) && t in GivesBack(w, c, {})
      ensures t == n.Y
    {
      AcceptsOne(w, n.A, n.Z);
      AcceptsOne(w, n.X, n.Z);
      assert c == n.collectA;
    }
  }

  lemma StepLeadsOn(w: Workflow, o: Surfacing, level: set<Ty>, name: string, a: Ty, b: Ty)
    requires WellTyped(w, o) && ClosedWith(w, o, level) && a in level && name in w.steps && w.isEvent(b)
    requires w.steps[name] == Step([a], None, [b], false, false)
    ensures b in level
  {
    AcceptsOne(w, a, a);
    EmitsOne(w, b);
    assert AddsWith(w, o, a, name) <= level;
  }

  lemma FanOutLeadsOn(w: Workflow, o: Surfacing, level: set<Ty>, p: string, x: Ty)
    requires WellTyped(w, o) && ClosedWith(w, o, level) && x in level && p in w.steps
    requires w.steps[p].accepts == [x] && w.steps[p].collects.None? && w.steps[p].fanOut && !w.steps[p].acceptsSubclasses
    ensures o[p] <= level
  {
    AcceptsOne(w, x, x);
    assert AddsWith(w, o, x, p) <= level;
  }

  lemma CollectGivesBack(w: Workflow, o: Surfacing, p: string, c: string, a: Ty, b: Ty)
    requires Solution(w, o) && p in w.steps && c in w.steps && a in ChildWith(w, o, p) && w.isEvent(b)
    requires w.steps[c] == Step([a], Some([a]), [b], false, false)
    ensures b in o[p]
  {
    AcceptsOne(w, a, a);
    EmitsOne(w, b);
    assert Binds(w, c, ChildWith(w, o, p));
  }

  lemma EverySolutionHasW(w: Workflow, n: Cast, o: Surfacing)
    requires SelfFeeding(w, n) && Solution(w, o)
    ensures n.W in o[n.p] && n.Y in ChildWith(w, o, n.p)
  {
    EmitsOne(w, n.A);
    LevelWithIsClosed(w, o, {n.A});
    var child := ChildWith(w, o, n.p);
    StepLeadsOn(w, o, child, n.again, n.A, n.X);
    CollectGivesBack(w, o, n.p, n.collectA, n.A, n.Y);
    FanOutLeadsOn(w, o, child, n.p, n.X);
    StepLeadsOn(w, o, child, n.next, n.Y, n.Z);
    CollectGivesBack(w, o, n.p, n.collectZ, n.Z, n.W);
  }

  /**
   * In every such workflow W surfaces by the equations and is missing from the guarded traversal, and Y, which
   * the equations put into the level that "p" opens, is missing from the level reported for it.
   */
  lemma GuardLosesType(w: Workflow, n: Cast)
    requires SelfFeeding(w, n)
    ensures n.W in Ideal(w)[n.p] && n.W !in Collapse(w, n.p, {})
    ensures n.Y in ChildWith(w, Ideal(w), n.p) && n.Y !in Level(w, EventTypes(w, w.steps[n.p].emits), {n.p})
  {
    InnerLevel(w, n);
    EmitsOne(w, n.A);
    GuardedMissesW(w, n);
    IdealIsSolution(w);
    EverySolutionHasW(w, n, Ideal(w));
  }

  lemma SelfFeedingExists() returns (w: Workflow, n: Cast)
    ensures SelfFeeding(w, n) && Valid(w)
  {
    n := Cast("p", "q", "c", "s", "d", "A", "X", "Y", "Z", "W");
    w := Workflow(
      [n.p, n.again, n.collectA, n.next, n.collectZ],
      map[
        n.p := Step([n.X], None, [n.A], true, false),
        n.again := Step([n.A], None, [n.X], false, false),
        n.collectA := Step([n.A], Some([n.A]), [n.Y], false, false),
        n.next := Step([n.Y], None, [n.Z], false, false),
        n.collectZ := Step([n.Z], Some([n.Z]), [n.W], false, false)],
      t => true,
      (a, b) => a == b);
  }
}
