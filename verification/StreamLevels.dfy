/**
 * Stream levels of a workflow. A level is defined as the least set of event types that holds the seeds and is
 * closed under the successors of its types; what a fan-out step gives back to the level that triggered it is
 * computed from the level it opens, recursively, under a guard set of step names.
 */
module StreamLevels {
  import opened Matching

  // ----- the termination measure -----

  ghost function Outside(w: Workflow, guard: set<string>): nat { |w.steps.Keys - guard| }

  lemma GuardingShrinks(w: Workflow, guard: set<string>, name: string)
    ensures Outside(w, guard + {name}) ==
            Outside(w, guard) - if name in w.steps && name !in guard then 1 else 0
  {
    var rest, fewer := w.steps.Keys - guard, w.steps.Keys - (guard + {name});
    if name in rest {
      assert rest == fewer + {name};
    } else {
      assert rest == fewer;
    }
  }

  /** Of two steps, guarding one that is not yet guarded leaves no more outside than guarding the other. */
  lemma NewGuardIsTightest(w: Workflow, guard: set<string>, producer: string)
    ensures forall c :: c in w.steps && c !in guard ==> Outside(w, guard + {c}) <= Outside(w, guard + {producer})
  {
    GuardingShrinks(w, guard, producer);
    forall c | c in w.steps && c !in guard
      ensures Outside(w, guard + {c}) <= Outside(w, guard + {producer})
    {
      GuardingShrinks(w, guard, c);
    }
  }

  lemma GuardedTwice(w: Workflow, guard: set<string>, c: string)
    requires c in w.steps && c !in guard
    ensures Outside(w, guard + {c} + {c}) == Outside(w, guard + {c}) < Outside(w, guard)
  {
    GuardingShrinks(w, guard, c);
    assert guard + {c} + {c} == guard + {c};
  }

  // ----- the traversal as a definition -----

  /** Every event type that any step returns. */
  ghost function Returned(w: Workflow): set<Ty> {
    set name, t | name in w.steps && t in EventTypes(w, w.steps[name].emits) :: t
  }

  /** What step `name` adds to a level that holds `t`. */
  ghost function Adds(w: Workflow, guard: set<string>, t: Ty, name: string): (r: set<Ty>)
    requires name in w.steps
    decreases Outside(w, guard), 0, 0, 0
    ensures r <= Returned(w)
  {
    GuardingShrinks(w, guard, name);
    var step := w.steps[name];
    if !AcceptsType(w, t, step.accepts, step.acceptsSubclasses) || step.collects.Some? then {}
    else if step.fanOut then (if name in guard then {} else Collapse(w, name, guard))
    else EventTypes(w, step.emits)
  }

  ghost predicate Closed(w: Workflow, guard: set<string>, level: set<Ty>)
    decreases Outside(w, guard), 0, 0, 1
  {
    forall t, name :: t in level && name in w.steps ==> Adds(w, guard, t, name) <= level
  }

  /** The least set of types that holds the seeds and is closed. */
  ghost function Level(w: Workflow, seeds: set<Ty>, guard: set<string>): (r: set<Ty>)
    decreases Outside(w, guard), 0, 0, 2
  {
    set t | t in seeds + Returned(w) && forall level: set<Ty> :: seeds <= level && Closed(w, guard, level) ==> t in level
  }

  /** The collect step takes some type of the given level. */
  predicate Binds(w: Workflow, collect: string, level: set<Ty>)
    requires collect in w.steps
  {
    var step := w.steps[collect];
    step.collects.Some? && exists t :: t in level && AcceptsType(w, t, step.collects.value, step.acceptsSubclasses)
  }

  /** What the collect step `c` gives back when it is bound under `guard`. */
  ghost function GivesBack(w: Workflow, c: string, guard: set<string>): (r: set<Ty>)
    requires c in w.steps
    decreases if c in guard then 0 else Outside(w, guard + {c}), 1, Outside(w, guard), 0
    ensures r <= Returned(w)
  {
    GuardingShrinks(w, guard, c);
    assert guard + {c} + {c} == guard + {c};
    if w.steps[c].fanOut then (if c in guard then {} else Collapse(w, c, guard + {c}))
    else EventTypes(w, w.steps[c].emits)
  }

  /** What a fan-out step surfaces at the level that triggered it. */
  ghost function Collapse(w: Workflow, producer: string, guard: set<string>): (r: set<Ty>)
    requires producer in w.steps
    decreases Outside(w, guard + {producer}), 1, Outside(w, guard), 1
    ensures r <= Returned(w)
  {
    NewGuardIsTightest(w, guard, producer);
    var child := Level(w, EventTypes(w, w.steps[producer].emits), guard + {producer});
    set c, t | c in w.steps && Binds(w, c, child) && t in GivesBack(w, c, guard) :: t
  }

  // ----- a level is a least fixpoint -----

  lemma LevelIsClosed(w: Workflow, seeds: set<Ty>, guard: set<string>)
    ensures seeds <= Level(w, seeds, guard)
    ensures Closed(w, guard, Level(w, seeds, guard))
  {
    var level := Level(w, seeds, guard);
    forall t, name | t in level && name in w.steps
      ensures Adds(w, guard, t, name) <= level
    {
      forall u | u in Adds(w, guard, t, name)
        ensures u in level
      {
        forall other: set<Ty> | seeds <= other && Closed(w, guard, other)
          ensures u in other
        {
          assert t in other;
        }
      }
    }
  }

  lemma LevelIsLeast(w: Workflow, seeds: set<Ty>, guard: set<string>, level: set<Ty>)
    requires seeds <= level && Closed(w, guard, level)
    ensures Level(w, seeds, guard) <= level
  {
  }

  lemma LevelIsIdempotent(w: Workflow, seeds: set<Ty>, guard: set<string>)
    ensures Level(w, Level(w, seeds, guard), guard) == Level(w, seeds, guard)
  {
    var level := Level(w, seeds, guard);
    LevelIsClosed(w, seeds, guard);
    LevelIsClosed(w, level, guard);
    LevelIsLeast(w, level, guard, level);
  }

  lemma LevelOfUnion(w: Workflow, a: set<Ty>, b: set<Ty>, guard: set<string>)
    ensures Level(w, a + b, guard) == Level(w, a, guard) + Level(w, b, guard)
  {
    var both := Level(w, a, guard) + Level(w, b, guard);
    LevelIsClosed(w, a, guard);
    LevelIsClosed(w, b, guard);
    LevelIsClosed(w, a + b, guard);
    assert Closed(w, guard, both);
    LevelIsLeast(w, a + b, guard, both);
    LevelIsLeast(w, a, guard, Level(w, a + b, guard));
    LevelIsLeast(w, b, guard, Level(w, a + b, guard));
  }

  // ----- monotonicity, by mutual induction over levels and collapses -----

  /** v is w with some steps switched from exact to subclass-aware matching. */
  ghost predicate MoreSubclassAware(w: Workflow, v: Workflow) {
    && Valid(w) && v.isEvent == w.isEvent && v.isSubclass == w.isSubclass
    && v.steps.Keys == w.steps.Keys
    && forall name :: name in w.steps ==>
         || v.steps[name] == w.steps[name]
         || v.steps[name] == w.steps[name].(acceptsSubclasses := true)
  }

  ghost predicate AllEvents(w: Workflow, types: set<Ty>) { forall t :: t in types ==> w.isEvent(t) }

  lemma ReturnedAreEvents(w: Workflow)
    ensures AllEvents(w, Returned(w))
  {
  }

  lemma AddsMonotone(w: Workflow, v: Workflow, guard: set<string>, less: set<string>, t: Ty, name: string)
    requires MoreSubclassAware(w, v) && less <= guard && name in w.steps && w.isEvent(t)
    decreases Outside(v, less), 0, 0, 0
    ensures Adds(w, guard, t, name) <= Adds(v, less, t, name)
  {
    var step := w.steps[name];
    if AcceptsType(w, t, step.accepts, step.acceptsSubclasses) && step.collects.None? {
      SubclassesAcceptMore(w, t, step.accepts, step.acceptsSubclasses);
      AcceptanceAgrees(w, v, t, step.accepts, true);
      AcceptanceAgrees(w, v, t, step.accepts, step.acceptsSubclasses);
      if step.fanOut && name !in guard {
        GuardingShrinks(v, less, name);
        CollapseMonotone(w, v, name, guard, less);
      }
    }
  }

  lemma AcceptanceAgrees(w: Workflow, v: Workflow, t: Ty, accepted: seq<Ty>, allowSubclasses: bool)
    requires v.isSubclass == w.isSubclass
    ensures AcceptsType(w, t, accepted, allowSubclasses) == AcceptsType(v, t, accepted, allowSubclasses)
  {
    assert forall k :: 0 <= k < |accepted| ==>
      TypeMatches(w, t, accepted[k], allowSubclasses) == TypeMatches(v, t, accepted[k], allowSubclasses);
  }

  lemma LevelMonotone(w: Workflow, v: Workflow, seeds: set<Ty>, more: set<Ty>, guard: set<string>, less: set<string>)
    requires MoreSubclassAware(w, v) && less <= guard && seeds <= more && AllEvents(w, more)
    decreases Outside(v, less), 0, 0, 1
    ensures Level(w, seeds, guard) <= Level(v, more, less)
    ensures AllEvents(w, Level(v, more, less))
  {
    var bigger := Level(v, more, less);
    LevelIsClosed(v, more, less);
    ReturnedAreEvents(v);
    assert AllEvents(w, bigger);
    forall t, name | t in bigger && name in w.steps
      ensures Adds(w, guard, t, name) <= bigger
    {
      AddsMonotone(w, v, guard, less, t, name);
      assert Adds(v, less, t, name) <= bigger;
    }
    assert Closed(w, guard, bigger);
    LevelIsLeast(w, seeds, guard, bigger);
  }

  lemma BindsMonotone(w: Workflow, v: Workflow, c: string, level: set<Ty>, more: set<Ty>)
    requires MoreSubclassAware(w, v) && c in w.steps && level <= more && AllEvents(w, more) && Binds(w, c, level)
    ensures Binds(v, c, more)
  {
    var step := w.steps[c];
    var t :| t in level && AcceptsType(w, t, step.collects.value, step.acceptsSubclasses);
    SubclassesAcceptMore(w, t, step.collects.value, step.acceptsSubclasses);
    AcceptanceAgrees(w, v, t, step.collects.value, true);
    AcceptanceAgrees(w, v, t, step.collects.value, step.acceptsSubclasses);
  }

  lemma GivesBackMonotone(w: Workflow, v: Workflow, c: string, guard: set<string>, less: set<string>)
    requires MoreSubclassAware(w, v) && less <= guard && c in w.steps
    decreases if c in less then 0 else Outside(v, less + {c}), 1, Outside(v, less), 0
    ensures GivesBack(w, c, guard) <= GivesBack(v, c, less)
  {
    if w.steps[c].fanOut && c !in guard {
      GuardedTwice(v, less, c);
      CollapseMonotone(w, v, c, guard + {c}, less + {c});
    }
  }

  lemma CollapseMonotone(w: Workflow, v: Workflow, producer: string, guard: set<string>, less: set<string>)
    requires MoreSubclassAware(w, v) && less <= guard && producer in w.steps
    decreases Outside(v, less + {producer}), 1, Outside(v, less), 1
    ensures Collapse(w, producer, guard) <= Collapse(v, producer, less)
  {
    var emitted := EventTypes(w, w.steps[producer].emits);
    assert EventTypes(v, v.steps[producer].emits) == emitted;
    LevelMonotone(w, v, emitted, emitted, guard + {producer}, less + {producer});
    var child := Level(w, emitted, guard + {producer});
    NewGuardIsTightest(v, less, producer);
    forall c | c in w.steps && Binds(w, c, child)
      ensures GivesBack(w, c, guard) <= GivesBack(v, c, less)
      ensures Binds(v, c, Level(v, emitted, less + {producer}))
    {
      BindsMonotone(w, v, c, child, Level(v, emitted, less + {producer}));
      GivesBackMonotone(w, v, c, guard, less);
    }
  }

  /** Enlarging the guard never adds a type to a level. */
  lemma LargerGuardSmallerLevel(w: Workflow, seeds: set<Ty>, guard: set<string>, larger: set<string>)
    requires Valid(w) && AllEvents(w, seeds) && guard <= larger
    ensures Level(w, seeds, larger) <= Level(w, seeds, guard)
  {
    LevelMonotone(w, w, seeds, seeds, larger, guard);
  }

  /** Switching steps from exact to subclass-aware matching never removes a type from a level. */
  lemma SubclassAwareLargerLevel(w: Workflow, v: Workflow, seeds: set<Ty>, guard: set<string>)
    requires MoreSubclassAware(w, v) && AllEvents(w, seeds)
    ensures Level(w, seeds, guard) <= Level(v, seeds, guard)
  {
    LevelMonotone(w, v, seeds, seeds, guard, guard);
  }

  /** A level does not depend on the order in which the steps are declared. */
  lemma LevelIgnoresOrder(w: Workflow, v: Workflow, seeds: set<Ty>, guard: set<string>)
    requires Valid(w) && Valid(v) && v == w.(order := v.order) && AllEvents(w, seeds)
    ensures Level(w, seeds, guard) == Level(v, seeds, guard)
  {
    LevelMonotone(w, v, seeds, seeds, guard, guard);
    LevelMonotone(v, w, seeds, seeds, guard, guard);
  }

  // ----- isolation -----

  /** Some collect step that does not fan out returns the type. */
  ghost predicate CollectOutput(w: Workflow, t: Ty) {
    exists c :: c in w.steps && w.steps[c].collects.Some? && !w.steps[c].fanOut && t in EventTypes(w, w.steps[c].emits)
  }

  /** Some ordinary 1:1 step that accepts a type of the level returns the type. */
  ghost predicate StepOutput(w: Workflow, level: set<Ty>, t: Ty) {
    exists name, u ::
      && name in w.steps && u in level
      && AcceptsType(w, u, w.steps[name].accepts, w.steps[name].acceptsSubclasses)
      && w.steps[name].collects.None? && !w.steps[name].fanOut && t in EventTypes(w, w.steps[name].emits)
  }

  lemma CollapseIsCollectOutput(w: Workflow, producer: string, guard: set<string>, t: Ty)
    requires producer in w.steps && t in Collapse(w, producer, guard)
    decreases Outside(w, guard + {producer}), 1, Outside(w, guard), 1
    ensures CollectOutput(w, t)
  {
    var child := Level(w, EventTypes(w, w.steps[producer].emits), guard + {producer});
    var c :| c in w.steps && Binds(w, c, child) && t in GivesBack(w, c, guard);
    if w.steps[c].fanOut {
      NewGuardIsTightest(w, guard, producer);
      GuardedTwice(w, guard, c);
      CollapseIsCollectOutput(w, c, guard + {c}, t);
    }
  }

  /** Where the types of a level come from; the members of a nested fan-out are not among them. */
  lemma LevelIsIsolated(w: Workflow, seeds: set<Ty>, guard: set<string>, t: Ty)
    requires t in Level(w, seeds, guard)
    ensures t in seeds || StepOutput(w, Level(w, seeds, guard), t) || CollectOutput(w, t)
  {
    var level := Level(w, seeds, guard);
    var explained := set u | u in level && (u in seeds || StepOutput(w, level, u) || CollectOutput(w, u));
    LevelIsClosed(w, seeds, guard);
    forall u, name | u in explained && name in w.steps
      ensures Adds(w, guard, u, name) <= explained
    {
      forall r | r in Adds(w, guard, u, name)
        ensures r in explained
      {
        assert Adds(w, guard, u, name) <= level;
        if w.steps[name].fanOut {
          CollapseIsCollectOutput(w, name, guard, r);
        }
      }
    }
    LevelIsLeast(w, seeds, guard, explained);
  }

  /** A type that only fan-out steps return is in a level only as one of its seeds. */
  lemma FanOutMembersDoNotLeak(w: Workflow, seeds: set<Ty>, guard: set<string>, t: Ty)
    requires forall name :: name in w.steps && t in EventTypes(w, w.steps[name].emits) ==> w.steps[name].fanOut
    ensures t in Level(w, seeds, guard) <==> t in seeds
  {
    LevelIsClosed(w, seeds, guard);
    if t in Level(w, seeds, guard) {
      LevelIsIsolated(w, seeds, guard, t);
    }
  }
}
