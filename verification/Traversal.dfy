/**
 * The traversal as it runs: a worklist that pops types and a recursive collapse. Both compute what
 * StreamLevels defines, in whatever order steps are declared and sets are listed.
 */
module Traversal {
  import opened Matching
  import opened StreamLevels

  ghost function Elements(types: seq<Ty>): set<Ty> { set t | t in types }

  lemma Appended(a: seq<Ty>, b: seq<Ty>)
    ensures Elements(a + b) == Elements(a) + Elements(b)
  {
  }

  lemma Popped(types: seq<Ty>)
    requires types != []
    ensures Elements(types) == Elements(types[..|types| - 1]) + {types[|types| - 1]}
  {
    assert types == types[..|types| - 1] + [types[|types| - 1]];
  }

  /** Lists a set in some order. */
  method ListOf(types: set<Ty>) returns (listed: seq<Ty>)
    ensures Elements(listed) == types
  {
    listed := [];
    var rest := types;
    while rest != {}
      invariant rest <= types && Elements(listed) == types - rest
    {
      var t :| t in rest;
      Appended(listed, [t]);
      listed, rest := listed + [t], rest - {t};
    }
  }

  method Events(w: Workflow, types: seq<Ty>) returns (events: seq<Ty>)
    ensures Elements(events) == EventTypes(w, types)
  {
    events := [];
    for i := 0 to |types|
      invariant Elements(events) == EventTypes(w, types[..i])
    {
      assert types[..i + 1] == types[..i] + [types[i]];
      Appended(events, [types[i]]);
      if w.isEvent(types[i]) {
        events := events + [types[i]];
      }
    }
    assert types[..|types|] == types;
  }

  /** What the first n steps add to a level that holds `t`. */
  ghost function AddedBy(w: Workflow, guard: set<string>, t: Ty, n: nat): set<Ty>
    requires Valid(w) && n <= |w.order|
  {
    set k, u | 0 <= k < n && u in Adds(w, guard, t, w.order[k]) :: u
  }

  lemma AllStepsAdded(w: Workflow, guard: set<string>, t: Ty)
    requires Valid(w)
    ensures forall name :: name in w.steps ==> Adds(w, guard, t, name) <= AddedBy(w, guard, t, |w.order|)
  {
    forall name | name in w.steps
      ensures Adds(w, guard, t, name) <= AddedBy(w, guard, t, |w.order|)
    {
      var k :| 0 <= k < |w.order| && w.order[k] == name;
    }
  }

  /** One popped type: the types that the steps send back to the frontier. */
  method Expand(w: Workflow, guard: set<string>, t: Ty) returns (added: seq<Ty>)
    requires Valid(w)
    decreases Outside(w, guard), 0, 0, 1
    ensures Elements(added) == AddedBy(w, guard, t, |w.order|)
  {
    added := [];
    for k := 0 to |w.order|
      invariant Elements(added) == AddedBy(w, guard, t, k)
    {
      var name := w.order[k];
      var step := w.steps[name];
      assert AddedBy(w, guard, t, k + 1) == AddedBy(w, guard, t, k) + Adds(w, guard, t, name);
      if !AcceptsType(w, t, step.accepts, step.acceptsSubclasses) {
        continue;
      }
      if step.collects.Some? {
        continue;
      }
      if step.fanOut {
        if name in guard {
          continue;
        }
        GuardingShrinks(w, guard, name);
        var surfaced := CollapsedOutputs(w, name, guard);
        var listed := ListOf(surfaced);
        added := added + listed;
        continue;
      }
      var events := Events(w, step.emits);
      added := added + events;
    }
  }

  /** Whatever the steps add to the seen types is seen or still pending. */
  ghost predicate Explored(w: Workflow, guard: set<string>, seen: set<Ty>, pending: set<Ty>) {
    forall t, name :: t in seen && name in w.steps ==> Adds(w, guard, t, name) <= seen + pending
  }

  lemma ExploreOne(w: Workflow, guard: set<string>, level: set<Ty>, seen: set<Ty>, pending: set<Ty>, t: Ty)
    requires Valid(w) && Closed(w, guard, level) && t in level && seen <= level && pending <= level
    requires Explored(w, guard, seen, pending + {t})
    ensures var more := pending + AddedBy(w, guard, t, |w.order|);
            more <= level && Explored(w, guard, seen + {t}, more)
  {
    AllStepsAdded(w, guard, t);
    forall u | u in AddedBy(w, guard, t, |w.order|)
      ensures u in level
    {
      var k :| 0 <= k < |w.order| && u in Adds(w, guard, t, w.order[k]);
    }
  }

  lemma SeenBefore(w: Workflow, guard: set<string>, seen: set<Ty>, pending: set<Ty>, t: Ty)
    requires t in seen && Explored(w, guard, seen, pending + {t})
    ensures Explored(w, guard, seen, pending)
  {
    assert seen + (pending + {t}) == seen + pending;
  }

  lemma FewerUnseen(level: set<Ty>, seen: set<Ty>, t: Ty)
    requires t in level && t !in seen
    ensures |level - (seen + {t})| < |level - seen|
  {
    assert level - seen == (level - (seen + {t})) + {t};
  }

  /** The worklist loop: everything that follows from `start`, within any closed level that holds it. */
  method Explore(w: Workflow, guard: set<string>, start: seq<Ty>, ghost level: set<Ty>) returns (seen: set<Ty>)
    requires Valid(w) && Closed(w, guard, level) && Elements(start) <= level
    decreases Outside(w, guard), 0, 0, 2
    ensures Elements(start) <= seen <= level && Closed(w, guard, seen)
  {
    seen := {};
    var frontier := start;
    while frontier != []
      invariant seen <= level && Elements(frontier) <= level
      invariant Elements(start) <= seen + Elements(frontier)
      invariant Explored(w, guard, seen, Elements(frontier))
      decreases |level - seen|, |frontier|
    {
      var t := frontier[|frontier| - 1];
      Popped(frontier);
      frontier := frontier[..|frontier| - 1];
      if t in seen {
        SeenBefore(w, guard, seen, Elements(frontier), t);
        continue;
      }
      FewerUnseen(level, seen, t);
      ExploreOne(w, guard, level, seen, Elements(frontier), t);
      seen := seen + {t};
      var added := Expand(w, guard, t);
      Appended(frontier, added);
      frontier := frontier + added;
    }
    NothingPending(w, guard, seen);
  }

  lemma NothingPending(w: Workflow, guard: set<string>, seen: set<Ty>)
    requires Explored(w, guard, seen, Elements([]))
    ensures Closed(w, guard, seen)
  {
    assert seen + Elements([]) == seen;
  }

  method Walk(w: Workflow, seeds: seq<Ty>, guard: set<string>) returns (seen: set<Ty>)
    requires Valid(w)
    decreases Outside(w, guard), 0, 0, 3
    ensures seen == Level(w, EventTypes(w, seeds), guard)
  {
    LevelIsClosed(w, EventTypes(w, seeds), guard);
    var start := Events(w, seeds);
    seen := Explore(w, guard, start, Level(w, EventTypes(w, seeds), guard));
    LevelIsLeast(w, EventTypes(w, seeds), guard, seen);
  }

  /** What the first n steps, as collect steps bound to `child`, give back. */
  ghost function GivenBackBy(w: Workflow, guard: set<string>, child: set<Ty>, n: nat): set<Ty>
    requires Valid(w) && n <= |w.order|
  {
    set k, u | 0 <= k < n && Binds(w, w.order[k], child) && u in GivesBack(w, w.order[k], guard) :: u
  }

  lemma OneMoreGivesBack(w: Workflow, guard: set<string>, child: set<Ty>, k: nat)
    requires Valid(w) && k < |w.order|
    ensures GivenBackBy(w, guard, child, k + 1) ==
            GivenBackBy(w, guard, child, k) + if Binds(w, w.order[k], child) then GivesBack(w, w.order[k], guard) else {}
  {
  }

  method GiveBack(w: Workflow, c: string, guard: set<string>) returns (out: set<Ty>)
    requires Valid(w) && c in w.steps
    decreases if c in guard then 0 else Outside(w, guard + {c}), 1, Outside(w, guard), 0
    ensures out == GivesBack(w, c, guard)
  {
    if w.steps[c].fanOut {
      if c in guard {
        return {};
      }
      GuardedTwice(w, guard, c);
      out := CollapsedOutputs(w, c, guard + {c});
    } else {
      out := EventTypes(w, w.steps[c].emits);
    }
  }

  method CollapsedOutputs(w: Workflow, producer: string, guard: set<string>) returns (out: set<Ty>)
    requires Valid(w) && producer in w.steps
    decreases Outside(w, guard + {producer}), 1, Outside(w, guard), 2
    ensures out == Collapse(w, producer, guard)
  {
    var child := Walk(w, w.steps[producer].emits, guard + {producer});
    out := GiveBackAll(w, producer, guard, child);
    AllBoundGiveBack(w, producer, guard, child);
  }

  /** The loop over the collect steps that are bound to the producer's child level. */
  method GiveBackAll(w: Workflow, producer: string, guard: set<string>, child: set<Ty>) returns (out: set<Ty>)
    requires Valid(w)
    decreases Outside(w, guard + {producer}), 1, Outside(w, guard), 1
    ensures out == GivenBackBy(w, guard, child, |w.order|)
  {
    NewGuardIsTightest(w, guard, producer);
    out := {};
    for k := 0 to |w.order|
      invariant out == GivenBackBy(w, guard, child, k)
    {
      OneMoreGivesBack(w, guard, child, k);
      if !Binds(w, w.order[k], child) {
        continue;
      }
      var more := GiveBack(w, w.order[k], guard);
      out := out + more;
    }
  }

  lemma AllBoundGiveBack(w: Workflow, producer: string, guard: set<string>, child: set<Ty>)
    requires Valid(w) && producer in w.steps
    requires child == Level(w, EventTypes(w, w.steps[producer].emits), guard + {producer})
    ensures GivenBackBy(w, guard, child, |w.order|) == Collapse(w, producer, guard)
  {
    forall t | t in Collapse(w, producer, guard)
      ensures t in GivenBackBy(w, guard, child, |w.order|)
    {
      var c :| c in w.steps && Binds(w, c, child) && t in GivesBack(w, c, guard);
      var k :| 0 <= k < |w.order| && w.order[k] == c;
    }
  }

  /** The levels opened by every fan-out step, each guarded by its own name. */
  method LevelsByProducer(w: Workflow) returns (levels: map<string, set<Ty>>)
    requires Valid(w)
    ensures levels.Keys == set name | name in w.steps && w.steps[name].fanOut
    ensures forall name :: name in levels ==> levels[name] == Level(w, EventTypes(w, w.steps[name].emits), {name})
  {
    levels := map[];
    for k := 0 to |w.order|
      invariant levels.Keys == set name | name in w.order[..k] && w.steps[name].fanOut
      invariant forall name :: name in levels ==> levels[name] == Level(w, EventTypes(w, w.steps[name].emits), {name})
    {
      var name := w.order[k];
      assert w.order[..k + 1] == w.order[..k] + [name];
      if w.steps[name].fanOut {
        var level := Walk(w, w.steps[name].emits, {name});
        levels := levels[name := level];
      }
    }
    assert w.order[..|w.order|] == w.order;
  }
}
