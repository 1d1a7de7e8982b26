/** Event types, steps, and which types route to which steps. */
module Matching {
  import opened Options

  /** Event types by name. `isEvent` tells event classes from other annotations. */
  type Ty = string

  /** `collects` holds the element types of a step's collection parameter, if it has one. */
  datatype Step = Step(
    accepts: seq<Ty>, collects: Option<seq<Ty>>, emits: seq<Ty>, fanOut: bool, acceptsSubclasses: bool)

  /** `order` is the order in which the steps were declared. */
  datatype Workflow = Workflow(
    order: seq<string>, steps: map<string, Step>, isEvent: Ty -> bool, isSubclass: (Ty, Ty) -> bool)

  /** The declaration order lists exactly the steps, and every class is a subclass of itself. */
  ghost predicate Valid(w: Workflow) {
    && (forall name :: name in w.order <==> name in w.steps)
    && (forall t :: w.isEvent(t) ==> w.isSubclass(t, t))
  }

  predicate TypeMatches(w: Workflow, produced: Ty, accepted: Ty, allowSubclasses: bool) {
    if allowSubclasses then w.isSubclass(produced, accepted) else produced == accepted
  }

  predicate AcceptsType(w: Workflow, produced: Ty, accepted: seq<Ty>, allowSubclasses: bool) {
    exists k :: 0 <= k < |accepted| && TypeMatches(w, produced, accepted[k], allowSubclasses)
  }

  function EventTypes(w: Workflow, types: seq<Ty>): set<Ty> {
    set t | t in types && w.isEvent(t)
  }

  /** Subclass-aware matching accepts every event type that exact matching accepts. */
  lemma SubclassesAcceptMore(w: Workflow, produced: Ty, accepted: seq<Ty>, allowSubclasses: bool)
    requires Valid(w) && w.isEvent(produced) && AcceptsType(w, produced, accepted, allowSubclasses)
    ensures AcceptsType(w, produced, accepted, true)
  {
    var k :| 0 <= k < |accepted| && TypeMatches(w, produced, accepted[k], allowSubclasses);
    assert TypeMatches(w, produced, accepted[k], true);
  }
}
