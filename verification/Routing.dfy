/**
 * Which types a level takes in, told from the steps and the class hierarchy alone, for one ordinary step and
 * for one fan-out step with one collect step.
 */
module Routing {
  import opened Options
  import opened Matching
  import opened StreamLevels

  /** Some listed class is the type itself or, where subclasses are allowed, a class it descends from. */
  ghost predicate Routes(w: Workflow, t: Ty, listed: seq<Ty>, subclasses: bool) {
    exists u :: u in listed && (if subclasses then w.isSubclass(t, u) else t == u)
  }

  lemma AcceptsByClass(w: Workflow, t: Ty, listed: seq<Ty>, subclasses: bool)
    ensures AcceptsType(w, t, listed, subclasses) <==> Routes(w, t, listed, subclasses)
  {
    if Routes(w, t, listed, subclasses) {
      var u :| u in listed && (if subclasses then w.isSubclass(t, u) else t == u);
      var k :| 0 <= k < |listed| && listed[k] == u;
      assert TypeMatches(w, t, listed[k], subclasses);
    }
    if AcceptsType(w, t, listed, subclasses) {
      var k :| 0 <= k < |listed| && TypeMatches(w, t, listed[k], subclasses);
      assert listed[k] in listed;
    }
  }

  lemma EmitsOnly(w: Workflow, t: Ty)
    requires w.isEvent(t)
    ensures EventTypes(w, [t]) == {t}
  {
  }

  /** A 1:1 step passes a type on exactly when its class is one the step is declared for. */
  lemma StepPassesOnExactly(w: Workflow, name: string, step: Step, t: Ty, W: Ty, guard: set<string>)
    requires w.steps == map[name := step] && step.collects.None? && !step.fanOut && step.emits == [W]
    requires w.isEvent(W) && t != W
    ensures W in Level(w, {t}, guard) <==> Routes(w, t, step.accepts, step.acceptsSubclasses)
  {
    AcceptsByClass(w, t, step.accepts, step.acceptsSubclasses);
    EmitsOnly(w, W);
    LevelIsClosed(w, {t}, guard);
    if AcceptsType(w, t, step.accepts, step.acceptsSubclasses) {
      assert Adds(w, guard, t, name) == {W};
    } else {
      assert Adds(w, guard, t, name) == {};
      assert Closed(w, guard, {t});
      LevelIsLeast(w, {t}, guard, {t});
    }
  }

  /** "p" fans out into T, and "c" collects from a list of classes and returns W. */
  ghost predicate FanOutAndCollect(w: Workflow, p: string, c: string, T: Ty, W: Ty) {
    && p != c && w.steps.Keys == {p, c}
    && w.steps[p].fanOut && w.steps[p].collects.None? && w.steps[p].emits == [T]
    && !w.steps[c].fanOut && w.steps[c].collects.Some? && w.steps[c].emits == [W]
    && w.isEvent(T) && w.isEvent(W)
  }

  lemma ChildIsOneType(w: Workflow, p: string, c: string, T: Ty, W: Ty)
    requires FanOutAndCollect(w, p, c, T, W)
    ensures Level(w, {T}, {p}) == {T}
  {
    LevelIsClosed(w, {T}, {p});
    assert Adds(w, {p}, T, p) == {} && Adds(w, {p}, T, c) == {};
    assert Closed(w, {p}, {T});
    LevelIsLeast(w, {T}, {p}, {T});
  }

  /** The collect step is bound, and W surfaces, exactly when T's class is one the step collects. */
  lemma CollectBindsExactly(w: Workflow, p: string, c: string, T: Ty, W: Ty)
    requires FanOutAndCollect(w, p, c, T, W)
    ensures Collapse(w, p, {}) ==
            if Routes(w, T, w.steps[c].collects.value, w.steps[c].acceptsSubclasses) then {W} else {}
  {
    ChildIsOneType(w, p, c, T, W);
    EmitsOnly(w, T);
    EmitsOnly(w, W);
    AcceptsByClass(w, T, w.steps[c].collects.value, w.steps[c].acceptsSubclasses);
    assert {} + {p} == {p};
    var child := Level(w, {T}, {p});
    assert Binds(w, c, child) <==> AcceptsType(w, T, w.steps[c].collects.value, w.steps[c].acceptsSubclasses);
    assert !Binds(w, p, child);
    if Binds(w, c, child) {
      assert W in GivesBack(w, c, {});
    }
  }

  /** And W is in the level of X exactly when X triggers "p" and the collect step is bound. */
  lemma CollectedTypeArrivesExactly(w: Workflow, p: string, c: string, T: Ty, W: Ty, X: Ty)
    requires FanOutAndCollect(w, p, c, T, W) && X != W
    ensures W in Level(w, {X}, {}) <==>
            && Routes(w, X, w.steps[p].accepts, w.steps[p].acceptsSubclasses)
            && Routes(w, T, w.steps[c].collects.value, w.steps[c].acceptsSubclasses)
  {
    CollectBindsExactly(w, p, c, T, W);
    AcceptsByClass(w, X, w.steps[p].accepts, w.steps[p].acceptsSubclasses);
    LevelIsClosed(w, {X}, {});
    assert Adds(w, {}, X, c) == {};
    if AcceptsType(w, X, w.steps[p].accepts, w.steps[p].acceptsSubclasses) {
      assert Adds(w, {}, X, p) == Collapse(w, p, {});
      assert Adds(w, {}, X, p) <= Level(w, {X}, {});
    }
    if Adds(w, {}, X, p) == {} {
      assert Closed(w, {}, {X});
      LevelIsLeast(w, {X}, {}, {X});
    }
  }

  /**
   * A collect step over a class takes the members of a subclass exactly when it is declared for subclasses;
   * a collect step over the subclass never takes the members of the class.
   */
  lemma SubclassesAreCollectedExactly(w: Workflow, p: string, c: string, sub: Ty, base: Ty, W: Ty)
    requires sub != base && w.isSubclass(sub, base) && !w.isSubclass(base, sub)
    ensures FanOutAndCollect(w, p, c, sub, W) && w.steps[c].collects == Some([base]) ==>
              (W in Collapse(w, p, {}) <==> w.steps[c].acceptsSubclasses)
    ensures FanOutAndCollect(w, p, c, base, W) && w.steps[c].collects == Some([sub]) ==> W !in Collapse(w, p, {})
  {
    if FanOutAndCollect(w, p, c, sub, W) && w.steps[c].collects == Some([base]) {
      CollectBindsExactly(w, p, c, sub, W);
      assert base in [base];
    }
    if FanOutAndCollect(w, p, c, base, W) && w.steps[c].collects == Some([sub]) {
      CollectBindsExactly(w, p, c, base, W);
    }
  }
}
